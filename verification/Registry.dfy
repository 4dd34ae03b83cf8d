/** The factory's registry of raffles: stable IDs that are never reused, a live count, and the
    creator and category indexes; and the pages through which they are read.

    Creation is taken to record the creator and the category of an ID, which cleaning reads,
    and to deploy at an address no live raffle has. */
module Registry {
  import opened Common

  const DEFAULT_PAGE_LIMIT := 100
  const MAX_PAGE_LIMIT := 200

  // ---------------------------------------------------------------------------
  // Live raffles

  /** The live raffles among the IDs in `keep` below `n`, in order of creation. */
  function Listed(byId: map<int, Address>, keep: set<int>, n: nat): seq<Address>
  {
    if n == 0 then []
    else Listed(byId, keep, n - 1) + ListedAt(byId, keep, n - 1)
  }

  function ListedAt(byId: map<int, Address>, keep: set<int>, id: int): seq<Address>
  {
    if id in byId && id in keep then [byId[id]] else []
  }

  /** All live raffles, in order of creation. */
  function Live(byId: map<int, Address>, n: nat): seq<Address>
  {
    Listed(byId, byId.Keys, n)
  }

  ghost predicate DistinctAddresses(byId: map<int, Address>)
  {
    forall i, j :: i in byId && j in byId && i != j ==> byId[i] != byId[j]
  }

  function Prune(list: seq<Address>, gone: Address): seq<Address>
  {
    if list == [] then []
    else
      var last := list[|list| - 1];
      Prune(list[..|list| - 1], gone) + if last != gone then [last] else []
  }

  lemma {:induction false} ListedFrame(a: map<int, Address>, ka: set<int>, b: map<int, Address>, kb: set<int>, n: nat)
    requires forall id :: 0 <= id < n ==> ((id in a && id in ka) <==> (id in b && id in kb))
    requires forall id :: 0 <= id < n && id in a && id in b ==> a[id] == b[id]
    ensures Listed(a, ka, n) == Listed(b, kb, n)
  {
    if n > 0 {
      ListedFrame(a, ka, b, kb, n - 1);
    }
  }

  lemma PruneTail(list: seq<Address>, tail: seq<Address>, gone: Address)
    requires |tail| <= 1
    ensures Prune(list + tail, gone) == Prune(list, gone) + if tail == [gone] then [] else tail
  {
    if tail == [] {
      assert list + tail == list && Prune(list, gone) + tail == Prune(list, gone);
    } else {
      assert (list + tail)[..|list|] == list && (list + tail)[|list|] == tail[0];
      assert [tail[0]] == tail;
    }
  }

  ghost predicate Removes(byId: map<int, Address>, id: int, after: map<int, Address>)
  {
    && id in byId && DistinctAddresses(byId)
    && forall i :: (i in after <==> i in byId && i != id) && (i in after ==> after[i] == byId[i])
  }

  lemma {:induction false} ListedWithout(byId: map<int, Address>, keep: set<int>, n: nat, id: int, after: map<int, Address>)
    requires Removes(byId, id, after)
    ensures Prune(Listed(byId, keep, n), byId[id]) == Listed(after, keep, n)
  {
    if n > 0 {
      ListedWithout(byId, keep, n - 1, id, after);
      var tail := ListedAt(byId, keep, n - 1);
      TailWithout(byId, keep, n - 1, id, after);
      PruneTail(Listed(byId, keep, n - 1), tail, byId[id]);
    }
  }

  lemma TailWithout(byId: map<int, Address>, keep: set<int>, i: int, id: int, after: map<int, Address>)
    requires Removes(byId, id, after)
    ensures var tail := ListedAt(byId, keep, i);
            ListedAt(after, keep, i) == if tail == [byId[id]] then [] else tail
  {
    if i in byId && i != id {
      assert byId[i] != byId[id];
    }
  }

  function IdsBelow(byId: map<int, Address>, n: nat): set<int>
  {
    set id | id in byId && 0 <= id < n
  }

  lemma {:induction false} LiveCountsIds(byId: map<int, Address>, n: nat)
    ensures |Live(byId, n)| == |IdsBelow(byId, n)|
  {
    if n == 0 {
      assert IdsBelow(byId, 0) == {};
    } else {
      LiveCountsIds(byId, n - 1);
      assert IdsBelow(byId, n) == IdsBelow(byId, n - 1) + if n - 1 in byId then {n - 1} else {};
    }
  }

  /** The live list has one entry per live ID. */
  lemma LiveLength(byId: map<int, Address>, n: nat)
    requires forall id :: id in byId ==> 0 <= id < n
    ensures |Live(byId, n)| == |byId|
  {
    LiveCountsIds(byId, n);
    assert IdsBelow(byId, n) == byId.Keys;
  }

  /** Live IDs have been assigned, hold different raffles, and are counted. */
  ghost predicate Numbered(byId: map<int, Address>, n: nat, count: nat)
  {
    && (forall id :: id in byId ==> 0 <= id < n)
    && DistinctAddresses(byId)
    && count == |byId|
  }

  ghost predicate Fresh(byId: map<int, Address>, raffle: Address)
  {
    forall id :: id in byId ==> byId[id] != raffle
  }

  lemma CreatedNumbered(byId: map<int, Address>, n: nat, count: nat, raffle: Address)
    requires Numbered(byId, n, count) && Fresh(byId, raffle)
    ensures Numbered(byId[n := raffle], n + 1, count + 1)
  {
    assert byId[n := raffle].Keys == byId.Keys + {n};
  }

  lemma CleanedNumbered(byId: map<int, Address>, n: nat, count: nat, id: int)
    requires Numbered(byId, n, count) && id in byId
    ensures count > 0 && Numbered(byId - {id}, n, count - 1)
  {
    assert byId.Keys == (byId - {id}).Keys + {id};
  }

  // ---------------------------------------------------------------------------
  // Indexes by creator or category

  function Owned<K(==)>(owners: map<int, K>, k: K): set<int>
  {
    set id | id in owners && owners[id] == k
  }

  function IndexOf<K(==)>(index: map<K, seq<Address>>, k: K): seq<Address>
  {
    if k in index then index[k] else []
  }

  /** Each key lists its live raffles in order of creation; keys without any are removed. */
  ghost predicate IndexAgrees<K(!new)>(byId: map<int, Address>, owners: map<int, K>, index: map<K, seq<Address>>, n: nat)
  {
    && (forall k: K :: IndexOf(index, k) == Listed(byId, Owned(owners, k), n))
    && forall k :: k in index ==> index[k] != []
  }

  lemma CreatedAgrees<K(!new)>(byId: map<int, Address>, owners: map<int, K>, index: map<K, seq<Address>>, n: nat,
                                   k: K, raffle: Address)
    requires IndexAgrees(byId, owners, index, n)
    ensures IndexAgrees(byId[n := raffle], owners[n := k], index[k := IndexOf(index, k) + [raffle]], n + 1)
  {
    var byId', owners', index' := byId[n := raffle], owners[n := k], index[k := IndexOf(index, k) + [raffle]];
    forall key: K
      ensures IndexOf(index', key) == Listed(byId', Owned(owners', key), n + 1)
    {
      ListedFrame(byId, Owned(owners, key), byId', Owned(owners', key), n);
    }
  }

  lemma UnlistedAgrees<K(!new)>(byId: map<int, Address>, owners: map<int, K>, index: map<K, seq<Address>>, n: nat, raffle: Address)
    requires IndexAgrees(byId, owners, index, n) && n !in owners
    ensures IndexAgrees(byId[n := raffle], owners, index, n + 1)
  {
    forall key: K
      ensures IndexOf(index, key) == Listed(byId[n := raffle], Owned(owners, key), n + 1)
    {
      ListedFrame(byId, Owned(owners, key), byId[n := raffle], Owned(owners, key), n);
    }
  }

  /** The index after the list of one key is pruned, and dropped if nothing is left. */
  function Pruned<K(==)>(index: map<K, seq<Address>>, k: K, gone: Address): map<K, seq<Address>>
  {
    if k !in index then index
    else if Prune(index[k], gone) == [] then index - {k}
    else index[k := Prune(index[k], gone)]
  }

  lemma CleanedAgrees<K(!new)>(byId: map<int, Address>, owners: map<int, K>, index: map<K, seq<Address>>, n: nat, id: int)
    requires IndexAgrees(byId, owners, index, n) && DistinctAddresses(byId) && id in byId && id in owners
    ensures IndexAgrees(byId - {id}, owners - {id}, Pruned(index, owners[id], byId[id]), n)
  {
    var index' := Pruned(index, owners[id], byId[id]);
    forall key: K
      ensures IndexOf(index', key) == Listed(byId - {id}, Owned(owners - {id}, key), n)
    {
      ListedFrame(byId - {id}, Owned(owners, key), byId - {id}, Owned(owners - {id}, key), n);
      if key == owners[id] {
        ListedWithout(byId, Owned(owners, key), n, id, byId - {id});
      } else {
        ListedFrame(byId, Owned(owners, key), byId - {id}, Owned(owners, key), n);
      }
    }
  }

  lemma UntouchedAgrees<K(!new)>(byId: map<int, Address>, owners: map<int, K>, index: map<K, seq<Address>>, n: nat, id: int)
    requires IndexAgrees(byId, owners, index, n) && id !in owners
    ensures IndexAgrees(byId - {id}, owners, index, n)
  {
    forall key: K
      ensures IndexOf(index, key) == Listed(byId - {id}, Owned(owners, key), n)
    {
      ListedFrame(byId, Owned(owners, key), byId - {id}, Owned(owners, key), n);
    }
  }

  /** Stable IDs: the live raffle of each, the next one to assign, and two counters. */
  datatype Ids = Ids(raffles: map<int, Address>, next: nat, count: nat, created: nat)

  /** Who created each live raffle, and in which category. */
  datatype Labels = Labels(creators: map<int, Address>, categories: map<int, string>)

  datatype Indexes = Indexes(byCreator: map<Address, seq<Address>>, byCategory: map<string, seq<Address>>)

  /** Every live raffle has a creator and at most a category, and both indexes agree. */
  ghost predicate Indexed(byId: map<int, Address>, n: nat, labels: Labels, indexes: Indexes)
  {
    && labels.creators.Keys == byId.Keys && labels.categories.Keys <= byId.Keys
    && IndexAgrees(byId, labels.creators, indexes.byCreator, n)
    && IndexAgrees(byId, labels.categories, indexes.byCategory, n)
  }

  /** Add a raffle at the end of the list of its key, if it has one. */
  function WithOwner<K>(owners: map<int, K>, id: int, k: Option<K>): map<int, K>
  {
    if k.Some? then owners[id := k.value] else owners
  }

  function WithRaffle<K(==)>(index: map<K, seq<Address>>, k: Option<K>, raffle: Address): map<K, seq<Address>>
  {
    if k.Some? then index[k.value := IndexOf(index, k.value) + [raffle]] else index
  }

  lemma EnrolledAgrees<K(!new)>(byId: map<int, Address>, owners: map<int, K>, index: map<K, seq<Address>>, n: nat,
                                k: Option<K>, raffle: Address)
    requires IndexAgrees(byId, owners, index, n) && n !in owners
    ensures IndexAgrees(byId[n := raffle], WithOwner(owners, n, k), WithRaffle(index, k, raffle), n + 1)
  {
    if k.Some? {
      CreatedAgrees(byId, owners, index, n, k.value, raffle);
    } else {
      UnlistedAgrees(byId, owners, index, n, raffle);
    }
  }

  lemma CreatedIndexed(byId: map<int, Address>, n: nat, labels: Labels, indexes: Indexes,
                       raffle: Address, creator: Address, category: Option<string>)
    requires Indexed(byId, n, labels, indexes) && n !in byId
    ensures Indexed(byId[n := raffle], n + 1,
                    Labels(labels.creators[n := creator], WithOwner(labels.categories, n, category)),
                    Indexes(WithRaffle(indexes.byCreator, Some(creator), raffle), WithRaffle(indexes.byCategory, category, raffle)))
  {
    EnrolledAgrees(byId, labels.creators, indexes.byCreator, n, Some(creator), raffle);
    EnrolledAgrees(byId, labels.categories, indexes.byCategory, n, category, raffle);
  }

  lemma RemovedAgrees<K(!new)>(byId: map<int, Address>, owners: map<int, K>, index: map<K, seq<Address>>, n: nat, id: int)
    requires IndexAgrees(byId, owners, index, n) && DistinctAddresses(byId) && id in byId
    ensures IndexAgrees(byId - {id}, owners - {id}, if id in owners then Pruned(index, owners[id], byId[id]) else index, n)
  {
    if id in owners {
      CleanedAgrees(byId, owners, index, n, id);
    } else {
      UntouchedAgrees(byId, owners, index, n, id);
      assert owners - {id} == owners;
    }
  }

  lemma CleanedIndexed(byId: map<int, Address>, n: nat, labels: Labels, indexes: Indexes, id: int)
    requires Indexed(byId, n, labels, indexes) && DistinctAddresses(byId) && id in byId
    ensures Indexed(byId - {id}, n, Labels(labels.creators - {id}, labels.categories - {id}),
                    Indexes(Pruned(indexes.byCreator, labels.creators[id], byId[id]),
                            if id in labels.categories then Pruned(indexes.byCategory, labels.categories[id], byId[id])
                            else indexes.byCategory))
  {
    RemovedAgrees(byId, labels.creators, indexes.byCreator, n, id);
    RemovedAgrees(byId, labels.categories, indexes.byCategory, n, id);
  }

  // ---------------------------------------------------------------------------
  // Pages

  function EffectiveLimit(requested: u32): u32
  {
    if requested == 0 then DEFAULT_PAGE_LIMIT
    else if requested > MAX_PAGE_LIMIT then MAX_PAGE_LIMIT
    else requested
  }

  datatype Page = Page(items: seq<Address>, total: nat, hasMore: bool)

  /** The page of a list that starts at `offset`. */
  function PageOf(source: seq<Address>, offset: nat, limit: u32): Page
  {
    if offset >= |source| then Page([], |source|, false)
    else
      var end := Min(offset + EffectiveLimit(limit), |source|);
      Page(source[offset..end], |source|, end < |source|)
  }

  /** The live raffles with an ID from `lo` up to but not including `hi`. */
  function LiveBetween(byId: map<int, Address>, lo: nat, hi: nat): seq<Address>
    decreases hi
  {
    if hi <= lo then []
    else LiveBetween(byId, lo, hi - 1) + if hi - 1 in byId then [byId[hi - 1]] else []
  }

  /** The live raffles with an ID in a window; the offset counts IDs, the total live raffles. */
  function WindowOf(byId: map<int, Address>, next: nat, offset: nat, limit: u32): Page
  {
    if offset >= next then Page([], |byId|, false)
    else
      var end := Min(offset + EffectiveLimit(limit), next);
      Page(LiveBetween(byId, offset, end), |byId|, end < next)
  }

  method Slice(source: seq<Address>, first: nat, end: nat) returns (items: seq<Address>)
    requires first <= end <= |source|
    ensures items == source[first..end]
  {
    items := [];
    var i := first;
    while i < end
      invariant first <= i <= end && items == source[first..i]
    {
      items := items + [source[i]];
      i := i + 1;
    }
  }

  method PaginateRaffles(source: seq<Address>, offset: u32, limit: u32) returns (page: Page)
    ensures page == PageOf(source, offset, limit)
  {
    if offset >= |source| {
      return Page([], |source|, false);
    }
    var end := Min(offset + EffectiveLimit(limit), |source|);
    var items := Slice(source, offset, end);
    return Page(items, |source|, end < |source|);
  }

  /** Everything a client collects that follows the pages from `offset` while there are more. */
  function CollectPages(source: seq<Address>, offset: nat, limit: u32): seq<Address>
    decreases |source| - offset
  {
    var page := PageOf(source, offset, limit);
    page.items + if page.hasMore then CollectPages(source, offset + EffectiveLimit(limit), limit) else []
  }

  /** How much one call returns at most: what was asked for, up to 200, or 100 by default. */
  function AtMost(limit: u32): nat
  {
    if limit == 0 then 100 else Min(limit, 200)
  }

  /** A page is the piece of the list from `offset` on, as long as a page may be, and says whether
      more is left. */
  lemma PageIsPiece(source: seq<Address>, offset: nat, limit: u32)
    ensures var page := PageOf(source, offset, limit);
            && page.total == |source| && (page.hasMore <==> offset + AtMost(limit) < |source|)
            && if offset > |source| then page.items == []
               else if page.hasMore then page.items == source[offset..offset + AtMost(limit)]
               else page.items == source[offset..]
  {
  }

  /** Whatever limit is asked for, the pages concatenate to the list, each entry once. */
  lemma {:induction false} PagesConcatenate(source: seq<Address>, offset: nat, limit: u32)
    requires offset <= |source|
    ensures CollectPages(source, offset, limit) == source[offset..]
    decreases |source| - offset
  {
    var page := PageOf(source, offset, limit);
    if page.hasMore {
      PagesConcatenate(source, offset + EffectiveLimit(limit), limit);
    }
  }

  lemma {:induction false} LiveSplits(byId: map<int, Address>, lo: nat, hi: nat)
    requires lo <= hi
    ensures Live(byId, lo) + LiveBetween(byId, lo, hi) == Live(byId, hi)
    decreases hi
  {
    if lo < hi {
      LiveSplits(byId, lo, hi - 1);
    } else {
      assert Live(byId, lo) + [] == Live(byId, hi);
    }
  }

  /** A window holds the live raffles that come after those below its first ID and before those
      from its end on. */
  lemma WindowIsPiece(byId: map<int, Address>, next: nat, offset: nat, limit: u32)
    requires offset <= next
    ensures var page := WindowOf(byId, next, offset, limit);
            && page.total == |byId| && (page.hasMore <==> offset + AtMost(limit) < next)
            && Live(byId, offset) + page.items == Live(byId, Min(offset + AtMost(limit), next))
  {
    if offset < next {
      LiveSplits(byId, offset, Min(offset + AtMost(limit), next));
    } else {
      assert Live(byId, offset) + [] == Live(byId, next);
    }
  }

  function CollectWindows(byId: map<int, Address>, next: nat, offset: nat, limit: u32): seq<Address>
    decreases next - offset
  {
    var page := WindowOf(byId, next, offset, limit);
    page.items + if page.hasMore then CollectWindows(byId, next, offset + EffectiveLimit(limit), limit) else []
  }

  /** A window in the middle is followed by the rest. */
  lemma WindowThenRest(byId: map<int, Address>, next: nat, offset: nat, limit: u32, end: nat)
    requires offset < next && end == Min(offset + EffectiveLimit(limit), next)
    ensures CollectWindows(byId, next, offset, limit)
         == LiveBetween(byId, offset, end) + if end < next then CollectWindows(byId, next, end, limit) else []
  {
  }

  lemma Regroup(before: seq<Address>, window: seq<Address>, rest: seq<Address>, middle: seq<Address>, all: seq<Address>)
    requires before + window == middle && middle + rest == all
    ensures before + (window + rest) == all
  {
    assert before + (window + rest) == (before + window) + rest;
  }

  /** The ID windows concatenate to the live raffles too. */
  lemma {:induction false} WindowsConcatenate(byId: map<int, Address>, next: nat, offset: nat, limit: u32)
    requires offset <= next
    ensures Live(byId, offset) + CollectWindows(byId, next, offset, limit) == Live(byId, next)
    decreases next - offset
  {
    if offset < next {
      var end := Min(offset + EffectiveLimit(limit), next);
      var window, rest := LiveBetween(byId, offset, end), CollectWindows(byId, next, end, limit);
      WindowThenRest(byId, next, offset, limit, end);
      LiveSplits(byId, offset, end);
      if end < next {
        WindowsConcatenate(byId, next, end, limit);
        Regroup(Live(byId, offset), window, rest, Live(byId, end), Live(byId, next));
      } else {
        assert window + [] == window;
      }
    } else {
      NothingPastTheEnd(byId, next, limit);
    }
  }

  lemma NothingPastTheEnd(byId: map<int, Address>, next: nat, limit: u32)
    ensures Live(byId, next) + CollectWindows(byId, next, next, limit) == Live(byId, next)
  {
  }

  // ---------------------------------------------------------------------------
  // The factory's storage

  class Factory {
    var ids: Ids
    var labels: Labels
    var indexes: Indexes

    ghost predicate Valid()
      reads this
    {
      && ids.created == ids.next < U32_LIMIT
      && Numbered(ids.raffles, ids.next, ids.count)
      && Indexed(ids.raffles, ids.next, labels, indexes)
    }

    constructor ()
      ensures Valid() && ids == Ids(map[], 0, 0, 0)
    {
      ids := Ids(map[], 0, 0, 0);
      labels := Labels(map[], map[]);
      indexes := Indexes(map[], map[]);
    }

    /** Creation fails only when the number of raffles ever created no longer fits, so IDs are
        never reused; otherwise the raffle joins the registry and its indexes at the end. */
    method CreateRaffle(raffle: Address, creator: Address, category: Option<string>) returns (r: Result<nat>)
      requires Valid() && Fresh(ids.raffles, raffle)
      modifies this
      ensures Valid()
      ensures r.Err? <==> old(ids.next) + 1 >= U32_LIMIT
      ensures r.Err? ==> unchanged(this)
      ensures r.Ok? ==>
                && r.value == old(ids.next) == ids.next - 1
                && ids.raffles == old(ids.raffles)[r.value := raffle]
                && labels.creators == old(labels.creators)[r.value := creator]
                && labels.categories == WithOwner(old(labels.categories), r.value, category)
    {
      if ids.created + 1 >= U32_LIMIT {
        return Err(HostPanic);
      }
      var id := ids.next;
      CreatedNumbered(ids.raffles, id, ids.count, raffle);
      CreatedIndexed(ids.raffles, id, labels, indexes, raffle, creator, category);
      var creatorRaffles := IndexOf(indexes.byCreator, creator) + [raffle];
      var byCategory, categories := indexes.byCategory, labels.categories;
      if category.Some? {
        byCategory := byCategory[category.value := IndexOf(byCategory, category.value) + [raffle]];
        categories := categories[id := category.value];
      }
      ids := Ids(ids.raffles[id := raffle], id + 1, ids.count + 1, ids.created + 1);
      labels := Labels(labels.creators[id := creator], categories);
      indexes := Indexes(indexes.byCreator[creator := creatorRaffles], byCategory);
      return Ok(id);
    }

    method PruneList(list: seq<Address>, gone: Address) returns (kept: seq<Address>)
      ensures kept == Prune(list, gone)
    {
      kept := [];
      var i := 0;
      while i < |list|
        invariant 0 <= i <= |list| && kept == Prune(list[..i], gone)
      {
        assert list[..i + 1][..i] == list[..i];
        if list[i] != gone {
          kept := kept + [list[i]];
        }
        i := i + 1;
      }
      assert list[..|list|] == list;
    }

    method PruneIndex<K(==)>(index: map<K, seq<Address>>, k: K, gone: Address) returns (pruned: map<K, seq<Address>>)
      ensures pruned == Pruned(index, k, gone)
    {
      if k !in index {
        return index;
      }
      var kept := PruneList(index[k], gone);
      if kept == [] {
        return index - {k};
      }
      return index[k := kept];
    }

    /** Cleaning removes one live ID, if the raffle agrees to be wiped, and leaves every other
        ID in place. */
    method CleanOldRaffle(id: int, wiped: bool) returns (r: Result<()>)
      requires Valid()
      modifies this
      ensures Valid()
      ensures r.Ok? <==> id in old(ids.raffles) && wiped
      ensures r.Err? ==> unchanged(this)
      ensures r.Ok? ==>
                && ids.raffles == old(ids.raffles) - {id} && ids.next == old(ids.next)
                && labels == Labels(old(labels.creators) - {id}, old(labels.categories) - {id})
    {
      if id !in ids.raffles || id !in labels.creators {
        return Err(InvalidRaffleId);
      }
      if !wiped {
        return Err(HostPanic);
      }
      CleanedNumbered(ids.raffles, ids.next, ids.count, id);
      CleanedIndexed(ids.raffles, ids.next, labels, indexes, id);
      var raffle := ids.raffles[id];
      var byCreator := PruneIndex(indexes.byCreator, labels.creators[id], raffle);
      var byCategory := indexes.byCategory;
      if id in labels.categories {
        byCategory := PruneIndex(byCategory, labels.categories[id], raffle);
      }
      ids := ids.(raffles := ids.raffles - {id}, count := Max(ids.count - 1, 0));
      labels := Labels(labels.creators - {id}, labels.categories - {id});
      indexes := Indexes(byCreator, byCategory);
      return Ok(());
    }

    /** The page of the live list: the count never points past the list it is read from. */
    method GetRafflesPage(offset: u32, limit: u32) returns (page: Page)
      requires Valid()
      ensures page == PageOf(Live(ids.raffles, ids.next), offset, limit)
    {
      LiveLength(ids.raffles, ids.next);
      if ids.count == 0 || offset >= ids.count {
        return Page([], ids.count, false);
      }
      var live := CollectLive();
      var end := Min(offset + EffectiveLimit(limit), ids.count);
      var items := Slice(live, offset, end);
      return Page(items, ids.count, end < ids.count);
    }

    method CollectLive() returns (live: seq<Address>)
      ensures live == Live(ids.raffles, ids.next)
    {
      live := [];
      var id := 0;
      while id < ids.next
        invariant 0 <= id <= ids.next && live == Listed(ids.raffles, ids.raffles.Keys, id)
      {
        if id in ids.raffles {
          live := live + [ids.raffles[id]];
        }
        id := id + 1;
      }
    }

    /** The page of an ID window. */
    method GetRafflesWindow(offset: u32, limit: u32) returns (page: Page)
      requires Valid()
      ensures page == WindowOf(ids.raffles, ids.next, offset, limit)
    {
      if offset >= ids.next {
        return Page([], ids.count, false);
      }
      var end := Min(offset + EffectiveLimit(limit), ids.next);
      var items := CollectBetween(offset, end);
      return Page(items, ids.count, end < ids.next);
    }

    method CollectBetween(first: nat, end: nat) returns (items: seq<Address>)
      requires first <= end
      ensures items == LiveBetween(ids.raffles, first, end)
    {
      items := [];
      var id := first;
      while id < end
        invariant first <= id <= end && items == LiveBetween(ids.raffles, first, id)
      {
        if id in ids.raffles {
          items := items + [ids.raffles[id]];
        }
        id := id + 1;
      }
    }

    /** The live raffles of one creator, by page. */
    method GetCreatorPage(creator: Address, offset: u32, limit: u32) returns (page: Page)
      requires Valid()
      ensures page == PageOf(Listed(ids.raffles, Owned(labels.creators, creator), ids.next), offset, limit)
    {
      page := PaginateRaffles(IndexOf(indexes.byCreator, creator), offset, limit);
    }
  }
}
