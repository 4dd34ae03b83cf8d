/** The winner draw: rejection sampling and a partial Fisher-Yates shuffle whose
    deck is kept only as a log of swaps.

    The reference definition `DrawFrom` shuffles a dense deck. The method
    `SelectWinnerIndices` keeps the sparse log of the contract and is proved to
    compute the same draw; what a draw promises is proved of the reference. */
module Draw {
  import opened Common
  import opened Lcg

  /** Samples below this bound are accepted; it is a positive multiple of `n`. */
  function AcceptBound(n: u32): (bound: u64)
    requires n >= 1
    ensures bound % n == 0 && bound > U64_MAX - n
  {
    var q := U64_MAX / n;
    assert n * q == q * n && U64_MAX - n < n * q <= U64_MAX;
    MultipleHasNoRest(q, n);
    q * n
  }

  lemma MultipleHasNoRest(q: nat, n: nat)
    requires n >= 1
    ensures (q * n) % n == 0 && (q * n) / n == q
  {
    assert q * n == n * q;
    RestIsUnique(q * n, n, q, 0);
  }

  lemma RestIsUnique(x: int, n: nat, q: int, r: nat)
    requires x == n * q + r && r < n
    ensures x / n == q && x % n == r
  {
    var d := x / n - q;
    assert n * d == r - x % n;
    if d >= 1 {
      MultipleIsLarge(n, d);
    } else if d <= -1 {
      MultipleIsLarge(n, -d);
    }
  }

  lemma MultipleIsLarge(n: nat, d: int)
    requires d >= 1
    ensures n * d >= n
  {
    assert n * d == n * (d - 1) + n;
  }

  /** The first seed of the generator's orbit that rejection sampling accepts. */
  function AcceptedSeed(seed: u64, n: u32): (accepted: u64)
    requires n >= 1
    ensures accepted < AcceptBound(n)
    decreases StepsToZero(seed)
  {
    if seed < AcceptBound(n) then seed
    else
      StepApproachesZero(seed);
      AcceptedSeed(Next(seed), n)
  }

  /** `accepted` is the earliest accepted sample of the orbit, found in fewer than 2^64 steps. */
  lemma {:induction false} AcceptedIsFirst(seed: u64, n: u32) returns (rejected: nat)
    requires n >= 1
    ensures rejected < U64_LIMIT && AcceptedSeed(seed, n) == Iterate(seed, rejected)
    ensures forall i: nat :: i < rejected ==> Iterate(seed, i) >= AcceptBound(n)
    ensures rejected <= StepsToZero(seed)
    decreases StepsToZero(seed)
  {
    if seed < AcceptBound(n) {
      rejected := 0;
    } else {
      StepApproachesZero(seed);
      var r := AcceptedIsFirst(Next(seed), n);
      rejected := r + 1;
      forall i: nat | i < rejected
        ensures Iterate(seed, i) >= AcceptBound(n)
      {
        if i > 0 {
          assert Iterate(seed, i) == Iterate(Next(seed), i - 1);
        }
      }
    }
  }

  // ---------------------------------------------------------------------------
  // The dense reference shuffle

  function Identity(n: nat): (deck: seq<nat>)
    ensures |deck| == n && forall i :: 0 <= i < n ==> deck[i] == i
  {
    seq(n, i => i)
  }

  /** Take position `r` out of the deck; the last card moves into the gap. */
  function TakeOut(deck: seq<nat>, r: nat): (rest: seq<nat>)
    requires r < |deck|
    ensures |rest| == |deck| - 1
  {
    deck[r := deck[|deck| - 1]][..|deck| - 1]
  }

  /** The position drawn at turn `i` lies in the deck of `n - i` cards left. */
  ghost predicate Legal(positions: seq<nat>, n: nat)
  {
    |positions| <= n && forall i :: 0 <= i < |positions| ==> positions[i] < n - i
  }

  /** The positions the seed draws from decks of n, n - 1, ... cards. */
  function Positions(seed: u64, n: u32, count: nat): (ps: seq<nat>)
    ensures |ps| == Min(count, n) && Legal(ps, n)
    decreases count
  {
    if count == 0 || n == 0 then []
    else
      var s := AcceptedSeed(seed, n);
      [s % n] + Positions(s, n - 1, count - 1)
  }

  datatype Drawn = Drawn(indices: seq<nat>, deck: seq<nat>)

  function Deal(deck: seq<nat>, positions: seq<nat>): (d: Drawn)
    requires Legal(positions, |deck|)
    ensures |d.indices| == |positions| && |d.deck| == |deck| - |positions|
    decreases |positions|
  {
    if positions == [] then Drawn([], deck)
    else
      var rest := Deal(TakeOut(deck, positions[0]), positions[1..]);
      rest.(indices := [deck[positions[0]]] + rest.indices)
  }

  function Selected(seed: u64, total: u32, count: nat): (indices: seq<nat>)
    ensures |indices| == Min(count, total)
  {
    Deal(Identity(total), Positions(seed, total, count)).indices
  }

  // ---------------------------------------------------------------------------
  // What a draw promises

  lemma TakeOutKeepsCards(deck: seq<nat>, r: nat)
    requires r < |deck|
    ensures multiset(deck) == multiset([deck[r]]) + multiset(TakeOut(deck, r))
  {
    var n := |deck| - 1;
    var low, last := deck[..r], deck[n];
    if r == n {
      assert deck == low + [last] && TakeOut(deck, r) == low;
    } else {
      var high := deck[r + 1..n];
      assert deck == low + [deck[r]] + high + [last];
      assert TakeOut(deck, r) == low + [last] + high;
    }
  }

  ghost predicate Partitions(d: Drawn, deck: seq<nat>)
  {
    multiset(d.indices) + multiset(d.deck) == multiset(deck)
  }

  lemma CardJoinsDrawn(card: nat, d: Drawn, rest: seq<nat>, deck: seq<nat>)
    requires Partitions(d, rest)
    requires multiset(deck) == multiset([card]) + multiset(rest)
    ensures Partitions(d.(indices := [card] + d.indices), deck)
  {
  }

  /** The drawn indices and the cards left in the deck are the cards there were. */
  lemma {:induction false} DealIsPermutation(deck: seq<nat>, positions: seq<nat>)
    requires Legal(positions, |deck|)
    ensures Partitions(Deal(deck, positions), deck)
    decreases |positions|
  {
    if positions == [] {
    } else {
      var r := positions[0];
      var rest := TakeOut(deck, r);
      TakeOutKeepsCards(deck, r);
      DealIsPermutation(rest, positions[1..]);
      CardJoinsDrawn(deck[r], Deal(rest, positions[1..]), rest, deck);
    }
  }

  lemma {:induction false} IdentityIsInjective(n: nat)
    ensures forall v :: multiset(Identity(n))[v] == if 0 <= v < n then 1 else 0
  {
    if n == 0 {
    } else {
      assert Identity(n) == Identity(n - 1) + [n - 1];
      IdentityIsInjective(n - 1);
    }
  }

  ghost predicate Distinct<T(!new)>(s: seq<T>)
  {
    forall i, j :: 0 <= i < j < |s| ==> s[i] != s[j]
  }

  lemma SimpleMultisetIsDistinct(s: seq<nat>)
    requires forall v :: multiset(s)[v] <= 1
    ensures Distinct(s)
  {
    forall i, j | 0 <= i < j < |s|
      ensures s[i] != s[j]
    {
      if s[i] == s[j] {
        RepeatCountsTwice(s, i, j);
      }
    }
  }

  lemma RepeatCountsTwice(s: seq<nat>, i: nat, j: nat)
    requires i < j < |s| && s[i] == s[j]
    ensures multiset(s)[s[j]] >= 2
  {
    assert s == s[..j] + [s[j]] + s[j + 1..];
    assert s[i] in s[..j];
    assert multiset(s[..j])[s[j]] >= 1;
  }

  /** A draw returns exactly min(count, total) pairwise distinct tickets in range. */
  lemma SelectionIsExact(seed: u64, total: u32, count: nat)
    ensures var indices := Selected(seed, total, count);
            && |indices| == Min(count, total)
            && Distinct(indices)
            && (forall i :: 0 <= i < |indices| ==> 0 <= indices[i] < total)
  {
    var d := Deal(Identity(total), Positions(seed, total, count));
    DealIsPermutation(Identity(total), Positions(seed, total, count));
    IdentityIsInjective(total);
    forall v: nat
      ensures multiset(d.indices)[v] <= if v < total then 1 else 0
    {
      assert multiset(d.indices)[v] + multiset(d.deck)[v] == multiset(Identity(total))[v];
    }
    SimpleMultisetIsDistinct(d.indices);
    forall i | 0 <= i < |d.indices|
      ensures 0 <= d.indices[i] < total
    {
      assert multiset(d.indices)[d.indices[i]] >= 1;
    }
  }

  /** A draw of as many winners as tickets is a permutation of the tickets. */
  lemma FullDrawIsPermutation(seed: u64, total: u32)
    ensures multiset(Selected(seed, total, total)) == multiset(Identity(total))
  {
    DealIsPermutation(Identity(total), Positions(seed, total, total));
  }

  lemma {:induction false} DealIsPrefixStable(deck: seq<nat>, few: seq<nat>, many: seq<nat>)
    requires few <= many && Legal(many, |deck|)
    ensures Deal(deck, few).indices <= Deal(deck, many).indices
    decreases |few|
  {
    if few == [] {
    } else {
      DealIsPrefixStable(TakeOut(deck, few[0]), few[1..], many[1..]);
    }
  }

  lemma {:induction false} PositionsArePrefixStable(seed: u64, n: u32, few: nat, many: nat)
    requires few <= many
    ensures Positions(seed, n, few) <= Positions(seed, n, many)
    decreases few
  {
    if few == 0 || n == 0 {
    } else {
      PositionsArePrefixStable(AcceptedSeed(seed, n), n - 1, few - 1, many - 1);
    }
  }

  /** Drawing more winners never changes the ones already drawn. */
  lemma SelectionIsPrefixStable(seed: u64, total: u32, few: nat, many: nat)
    requires few <= many
    ensures Selected(seed, total, few) <= Selected(seed, total, many)
  {
    PositionsArePrefixStable(seed, total, few, many);
    DealIsPrefixStable(Identity(total), Positions(seed, total, few), Positions(seed, total, many));
  }

  // ---------------------------------------------------------------------------
  // When the generator advances

  /** The accepted sample of each turn, which is the generator's state after it. */
  function States(seed: u64, n: u32, count: nat): (ss: seq<u64>)
    ensures |ss| == Min(count, n)
    decreases count
  {
    if count == 0 || n == 0 then []
    else
      var s := AcceptedSeed(seed, n);
      [s] + States(s, n - 1, count - 1)
  }

  /** The position drawn at a turn is that turn's sample, reduced to the cards left. */
  lemma {:induction false} PositionsComeFromStates(seed: u64, n: u32, count: nat, i: nat)
    requires i < Min(count, n)
    ensures Positions(seed, n, count)[i] == States(seed, n, count)[i] % (n - i)
    decreases count
  {
    if i > 0 {
      PositionsComeFromStates(AcceptedSeed(seed, n), n - 1, count - 1, i - 1);
    }
  }

  lemma AcceptedIsSeedIff(seed: u64, n: u32)
    requires n >= 1
    ensures AcceptedSeed(seed, n) == seed <==> seed < AcceptBound(n)
  {
  }

  /** The comments beside the loop say that the state advances across draws. It advances from
      one turn to the next exactly when the sample just accepted is rejected by the next turn's
      smaller deck. */
  lemma {:induction false} AdvancesIff(seed: u64, n: u32, count: nat, i: nat)
    requires i + 1 < Min(count, n)
    ensures States(seed, n, count)[i + 1] != States(seed, n, count)[i]
       <==> States(seed, n, count)[i] >= AcceptBound(n - i - 1)
    decreases count
  {
    var s := AcceptedSeed(seed, n);
    if i == 0 {
      AcceptedIsSeedIff(s, n - 1);
      assert States(s, n - 1, count - 1)[0] == AcceptedSeed(s, n - 1);
    } else {
      AdvancesIff(s, n - 1, count - 1, i - 1);
    }
  }

  /** Turn `i`, with `n - i` cards left, accepts the seed itself. */
  predicate AcceptsAt(seed: u64, n: u32, i: nat)
  {
    i < n && seed < AcceptBound(n - i)
  }

  ghost predicate AcceptedThroughout(seed: u64, n: u32, turns: nat)
  {
    forall i: nat :: i < turns ==> AcceptsAt(seed, n, i)
  }

  lemma AcceptedFromNextTurn(seed: u64, n: u32, turns: nat)
    requires 1 <= turns <= n
    ensures AcceptedThroughout(seed, n, turns) <==> AcceptsAt(seed, n, 0) && AcceptedThroughout(seed, n - 1, turns - 1)
  {
    if AcceptsAt(seed, n, 0) && AcceptedThroughout(seed, n - 1, turns - 1) {
      forall i: nat | i < turns
        ensures AcceptsAt(seed, n, i)
      {
        if i > 0 {
          assert AcceptsAt(seed, n - 1, i - 1);
        }
      }
    }
    if AcceptedThroughout(seed, n, turns) {
      var m: u32 := n - 1;
      forall i: nat | i < turns - 1
        ensures AcceptsAt(seed, m, i)
      {
        assert AcceptsAt(seed, n, i + 1);
      }
    }
  }

  ghost predicate Constant(ss: seq<u64>, x: u64)
  {
    forall i :: 0 <= i < |ss| ==> ss[i] == x
  }

  lemma ConstantFromNext(x: u64, rest: seq<u64>, first: u64)
    ensures Constant([first] + rest, x) <==> first == x && Constant(rest, x)
  {
    var ss := [first] + rest;
    assert ss[0] == first && ss[1..] == rest;
    if Constant(ss, x) {
      forall i | 0 <= i < |rest|
        ensures rest[i] == x
      {
        assert ss[i + 1] == rest[i];
      }
    }
  }

  /** A whole draw runs on one state, the seed itself, exactly when every turn accepts it. */
  lemma {:induction false} SeedIsReusedIff(seed: u64, n: u32, count: nat)
    ensures Constant(States(seed, n, count), seed) <==> AcceptedThroughout(seed, n, Min(count, n))
    decreases count
  {
    if count > 0 && n > 0 {
      var s := AcceptedSeed(seed, n);
      AcceptedIsSeedIff(seed, n);
      ConstantFromNext(seed, States(s, n - 1, count - 1), s);
      AcceptedFromNextTurn(seed, n, Min(count, n));
      if s == seed {
        SeedIsReusedIff(seed, n - 1, count - 1);
      }
    }
  }

  // ---------------------------------------------------------------------------
  // The sparse swap log of the contract

  /** The first entry for position `p`, or `p` itself. */
  function Lookup(swaps: seq<(nat, nat)>, p: nat): (card: nat)
    ensures (forall i :: 0 <= i < |swaps| ==> swaps[i].0 != p) ==> card == p
  {
    if swaps == [] then p
    else if swaps[0].0 == p then swaps[0].1
    else Lookup(swaps[1..], p)
  }

  lemma {:induction false} LookupFinds(swaps: seq<(nat, nat)>, i: nat)
    requires i < |swaps|
    requires forall j :: 0 <= j < i ==> swaps[j].0 != swaps[i].0
    ensures Lookup(swaps, swaps[i].0) == swaps[i].1
  {
    if i == 0 {
    } else {
      LookupFinds(swaps[1..], i - 1);
    }
  }

  /** No two entries of the log are for the same position. */
  ghost predicate OneEntryPerPosition(swaps: seq<(nat, nat)>)
  {
    forall i, j :: 0 <= i < j < |swaps| ==> swaps[i].0 != swaps[j].0
  }

  method ResolvePosition(swaps: seq<(nat, nat)>, p: nat) returns (card: nat)
    ensures card == Lookup(swaps, p)
  {
    card := p;
    var i := 0;
    while i < |swaps|
      invariant 0 <= i <= |swaps| && card == p
      invariant forall j :: 0 <= j < i ==> swaps[j].0 != p
    {
      if swaps[i].0 == card {
        card := swaps[i].1;
        LookupFinds(swaps, i);
        return;
      }
      i := i + 1;
    }
  }

  /** Overwrite the entry for `p`, or append one. */
  method RecordSwap(swaps: seq<(nat, nat)>, p: nat, card: nat) returns (log: seq<(nat, nat)>)
    requires OneEntryPerPosition(swaps)
    ensures OneEntryPerPosition(log)
    ensures forall q: nat :: Lookup(log, q) == if q == p then card else Lookup(swaps, q)
  {
    var found := None;
    var i := 0;
    while i < |swaps|
      invariant 0 <= i <= |swaps|
      invariant found == None
      invariant forall j :: 0 <= j < i ==> swaps[j].0 != p
    {
      if swaps[i].0 == p {
        found := Some(i);
        break;
      }
      i := i + 1;
    }
    if found.Some? {
      log := swaps[found.value := (p, card)];
    } else {
      log := swaps + [(p, card)];
    }
    forall q: nat
      ensures Lookup(log, q) == if q == p then card else Lookup(swaps, q)
    {
      if q == p {
        LookupFinds(log, i);
      } else {
        LookupIgnoresOthers(swaps, log, q);
      }
    }
  }

  lemma LookupIgnoresOthers(swaps: seq<(nat, nat)>, log: seq<(nat, nat)>, q: nat)
    requires OneEntryPerPosition(swaps) && OneEntryPerPosition(log) && |swaps| <= |log| <= |swaps| + 1
    requires forall i :: 0 <= i < |swaps| && (swaps[i].0 == q || log[i].0 == q) ==> log[i] == swaps[i]
    requires |swaps| < |log| ==> log[|swaps|].0 != q
    ensures Lookup(log, q) == Lookup(swaps, q)
  {
    if i :| 0 <= i < |swaps| && swaps[i].0 == q {
      LookupFinds(swaps, i);
      LookupFinds(log, i);
    } else {
      forall i | 0 <= i < |log|
        ensures log[i].0 != q
      {
      }
    }
  }

  /** The log describes the live deck. */
  ghost predicate Describes(swaps: seq<(nat, nat)>, deck: seq<nat>)
  {
    && OneEntryPerPosition(swaps)
    && forall p: nat :: p < |deck| ==> Lookup(swaps, p) == deck[p]
  }

  /** Rejection sampling: advance the generator until the seed is accepted. */
  method SampleAccepted(seed: u64, n: u32) returns (current: u64)
    requires n >= 1
    ensures current == AcceptedSeed(seed, n)
  {
    var bound := AcceptBound(n);
    current := seed;
    while current >= bound
      invariant AcceptedSeed(current, n) == AcceptedSeed(seed, n)
      decreases StepsToZero(current)
    {
      StepApproachesZero(current);
      current := Next(current);
    }
  }

  lemma {:induction false} DealOneMore(deck: seq<nat>, positions: seq<nat>, r: nat)
    requires Legal(positions, |deck|) && |positions| < |deck| && r < |deck| - |positions|
    ensures Legal(positions + [r], |deck|)
    ensures var d := Deal(deck, positions);
            Deal(deck, positions + [r]) == Drawn(d.indices + [d.deck[r]], TakeOut(d.deck, r))
    decreases |positions|
  {
    if positions == [] {
      assert (positions + [r])[1..] == [];
    } else {
      assert (positions + [r])[1..] == positions[1..] + [r];
      DealOneMore(TakeOut(deck, positions[0]), positions[1..], r);
    }
  }

  /** After the turns `taken`, the positions still to come are drawn from `current`. */
  ghost predicate Sampled(all: seq<nat>, taken: seq<nat>, current: u64, n: u32, count: nat)
  {
    all == taken + Positions(current, n, count)
  }

  lemma SampleAdvances(all: seq<nat>, taken: seq<nat>, current: u64, n: u32, count: nat, accepted: u64, r: nat)
    requires Sampled(all, taken, current, n, count) && n >= 1 && count >= 1
    requires accepted == AcceptedSeed(current, n) && r == accepted % n
    ensures Sampled(all, taken + [r], accepted, n - 1, count - 1)
  {
    var rest := Positions(accepted, n - 1, count - 1);
    assert Positions(current, n, count) == [r] + rest;
    assert taken + ([r] + rest) == (taken + [r]) + rest;
  }

  /** The cards drawn and the cards left are those dealt at the positions `taken`. */
  ghost predicate Dealt(total: nat, taken: seq<nat>, indices: seq<nat>, deck: seq<nat>)
  {
    Legal(taken, total) && Deal(Identity(total), taken) == Drawn(indices, deck)
  }

  lemma DealAdvances(total: nat, taken: seq<nat>, indices: seq<nat>, deck: seq<nat>, r: nat)
    requires Dealt(total, taken, indices, deck) && r < |deck|
    ensures Dealt(total, taken + [r], indices + [deck[r]], TakeOut(deck, r))
  {
    DealOneMore(Identity(total), taken, r);
  }

  /** What the draw loop knows after the turns `taken`. */
  ghost predicate Progress(seed: u64, total: u32, count: nat, taken: seq<nat>, current: u64,
                           indices: seq<nat>, deck: seq<nat>)
  {
    && |taken| <= count && |taken| <= total
    && Sampled(Positions(seed, total, count), taken, current, total - |taken|, count - |taken|)
    && Dealt(total, taken, indices, deck)
  }

  lemma ProgressAdvances(seed: u64, total: u32, count: nat, taken: seq<nat>, current: u64,
                         indices: seq<nat>, deck: seq<nat>, accepted: u64, r: nat)
    requires Progress(seed, total, count, taken, current, indices, deck)
    requires |taken| < count && |taken| < total && |deck| == total - |taken|
    requires accepted == AcceptedSeed(current, |deck|) && r == accepted % |deck|
    ensures Progress(seed, total, count, taken + [r], accepted, indices + [deck[r]], TakeOut(deck, r))
  {
    assert |taken + [r]| == |taken| + 1;
    assert Sampled(Positions(seed, total, count), taken + [r], accepted, total - |taken + [r]|, count - |taken + [r]|) by {
      SampleAdvances(Positions(seed, total, count), taken, current, |deck|, count - |taken|, accepted, r);
    }
    assert Dealt(total, taken + [r], indices + [deck[r]], TakeOut(deck, r)) by {
      DealAdvances(total, taken, indices, deck, r);
    }
  }

  lemma ProgressEnds(seed: u64, total: u32, count: nat, taken: seq<nat>, current: u64,
                     indices: seq<nat>, deck: seq<nat>)
    requires Progress(seed, total, count, taken, current, indices, deck)
    requires |taken| == Min(count, total)
    ensures indices == Selected(seed, total, count)
  {
    assert taken + [] == taken;
  }

  lemma RecordDescribes(swaps: seq<(nat, nat)>, log: seq<(nat, nat)>, deck: seq<nat>, r: nat)
    requires Describes(swaps, deck) && r < |deck| && OneEntryPerPosition(log)
    requires forall q: nat :: Lookup(log, q) == if q == r then deck[|deck| - 1] else Lookup(swaps, q)
    ensures Describes(log, TakeOut(deck, r))
  {
  }

  /** One turn of the draw loop: sample, resolve the card, log the swap. */
  method DrawNext(seed: u64, swaps: seq<(nat, nat)>, remaining: u32, ghost deck: seq<nat>)
    returns (current: u64, r: nat, actual: nat, log: seq<(nat, nat)>)
    requires remaining == |deck| >= 1 && Describes(swaps, deck)
    ensures current == AcceptedSeed(seed, remaining) && r == current % remaining
    ensures actual == deck[r]
    ensures Describes(log, TakeOut(deck, r))
  {
    current := SampleAccepted(seed, remaining);
    r := current % remaining;
    actual := ResolvePosition(swaps, r);
    var last := remaining - 1;
    var lastActual := ResolvePosition(swaps, last);
    log := RecordSwap(swaps, r, lastActual);
    RecordDescribes(swaps, log, deck, r);
  }

  /** The state of the draw loop before turn `drawn`: the log describes the live deck, which is
      what dealing at the positions `taken` leaves. */
  ghost predicate DrawLoop(seed: u64, total: u32, count: nat, drawn: nat, current: u64, indices: seq<nat>,
                           swaps: seq<(nat, nat)>, taken: seq<nat>, deck: seq<nat>)
  {
    && drawn == |taken| && drawn + |deck| == total && Describes(swaps, deck)
    && Progress(seed, total, count, taken, current, indices, deck)
  }

  lemma DrawLoopStarts(seed: u64, total: u32, count: nat)
    ensures DrawLoop(seed, total, count, 0, seed, [], [], [], Identity(total))
  {
    assert [] + Positions(seed, total, count) == Positions(seed, total, count);
  }

  lemma DrawLoopAdvances(seed: u64, total: u32, count: nat, drawn: nat, current: u64, indices: seq<nat>,
                         swaps: seq<(nat, nat)>, taken: seq<nat>, deck: seq<nat>,
                         accepted: u64, r: nat, log: seq<(nat, nat)>)
    requires DrawLoop(seed, total, count, drawn, current, indices, swaps, taken, deck)
    requires drawn < count && drawn < total
    requires accepted == AcceptedSeed(current, |deck|) && r == accepted % |deck| && Describes(log, TakeOut(deck, r))
    ensures DrawLoop(seed, total, count, drawn + 1, accepted, indices + [deck[r]], log, taken + [r], TakeOut(deck, r))
  {
    ProgressAdvances(seed, total, count, taken, current, indices, deck, accepted, r);
  }

  /** The contract's draw refines the dense shuffle, for every seed, count and total. */
  method SelectWinnerIndices(seed: u64, total: u32, count: u32) returns (indices: seq<nat>)
    ensures indices == Selected(seed, total, count)
  {
    indices := [];
    if total == 0 || count == 0 {
      return;
    }
    var effective := if count < total then count else total;
    var remaining := total;
    var current := seed;
    var swaps: seq<(nat, nat)> := [];
    ghost var taken, deck := [], Identity(total);
    DrawLoopStarts(seed, total, count);
    var drawn := 0;
    while drawn < effective
      invariant 0 <= drawn <= effective && remaining == total - drawn
      invariant DrawLoop(seed, total, count, drawn, current, indices, swaps, taken, deck)
    {
      var accepted, r, actual, log := DrawNext(current, swaps, remaining, deck);
      DrawLoopAdvances(seed, total, count, drawn, current, indices, swaps, taken, deck, accepted, r, log);
      indices := indices + [actual];
      taken, deck := taken + [r], TakeOut(deck, r);
      current, swaps := accepted, log;
      remaining := remaining - 1;
      drawn := drawn + 1;
    }
    ProgressEnds(seed, total, count, taken, current, indices, deck);
  }

  // ---------------------------------------------------------------------------
  // The accepted sample is unbiased

  function ResidueClass(bound: nat, n: nat, r: nat): (xs: set<nat>)
    requires n >= 1
  {
    set x: nat | x < bound && x % n == r
  }

  lemma {:induction false} ResidueClassSize(q: nat, n: nat, r: nat)
    requires r < n
    ensures |ResidueClass(q * n, n, r)| == q
  {
    if q == 0 {
      assert ResidueClass(0 * n, n, r) == {};
    } else {
      var low := ResidueClass((q - 1) * n, n, r);
      var x := (q - 1) * n + r;
      assert q * n == (q - 1) * n + n;
      forall y: nat | (q - 1) * n <= y < q * n
        ensures y % n == y - (q - 1) * n
      {
        assert (q - 1) * n == n * (q - 1);
        RestIsUnique(y, n, q - 1, y - (q - 1) * n);
      }
      assert ResidueClass(q * n, n, r) == low + {x};
      ResidueClassSize(q - 1, n, r);
    }
  }

  /** Over the accepted seeds every ticket wins a single-winner draw equally often. */
  lemma SingleDrawIsUniform(total: u32, ticket: nat)
    requires ticket < total
    ensures var seeds := set seed: u64 | seed < AcceptBound(total) && Selected(seed, total, 1) == [ticket];
            |seeds| * total == AcceptBound(total)
  {
    var bound := AcceptBound(total);
    var q := U64_MAX / total;
    assert bound == q * total;
    ResidueClassSize(q, total, ticket);
    var seeds := set seed: u64 | seed < bound && Selected(seed, total, 1) == [ticket];
    forall seed: u64 | seed < bound
      ensures Selected(seed, total, 1) == [seed % total]
    {
      OneWinner(seed, total);
    }
    assert seeds == ResidueClass(bound, total, ticket);
  }

  lemma OneWinner(seed: u64, total: u32)
    requires total >= 1 && seed < AcceptBound(total)
    ensures Selected(seed, total, 1) == [seed % total]
  {
    var r := seed % total;
    assert Positions(seed, total - 1, 0) == [];
    assert Positions(seed, total, 1) == [r];
    DealOneMore(Identity(total), [], r);
    assert [] + [r] == [r];
  }
}
