/** How the prize pool is split over the tiers: the floor share for each tier but the
    last, and the remainder for the last. */
module TierPrizes {
  import opened Common
  import opened Config

  function Share(amount: int, bp: u32): int
  {
    (amount * bp) / BASIS_POINTS
  }

  function SharesOf(amount: int, bps: seq<u32>): int
  {
    if bps == [] then 0 else SharesOf(amount, bps[..|bps| - 1]) + Share(amount, bps[|bps| - 1])
  }

  /** The prize of tier `i`, without the machine's overflow checks. */
  function TierPrize(amount: int, prizes: seq<u32>, i: nat): int
    requires i < |prizes|
  {
    var last := |prizes| - 1;
    if i == last then amount - SharesOf(amount, prizes[..last]) else Share(amount, prizes[i])
  }

  /** The first `n` tier prizes together. */
  function PrizeSum(amount: int, prizes: seq<u32>, n: nat): int
    requires n <= |prizes|
  {
    if n == 0 then 0 else PrizeSum(amount, prizes, n - 1) + TierPrize(amount, prizes, n - 1)
  }

  function CheckedMul(a: int, b: int): Result<int>
    requires a >= 0 && b >= 0
  {
    if a * b > I128_MAX then Err(ArithmeticOverflow) else Ok(a * b)
  }

  lemma ShareBounds(amount: int, bp: u32)
    requires 0 <= amount
    ensures 0 <= Share(amount, bp)
    ensures Share(amount, bp) * BASIS_POINTS <= amount * bp < (Share(amount, bp) + 1) * BASIS_POINTS
  {
    assert amount * bp >= 0;
  }

  /** The floor shares of the first tiers never exceed their exact share, and fall short of
      it by less than one unit a tier. */
  lemma {:induction false} SharesBounds(amount: int, bps: seq<u32>)
    requires 0 <= amount
    ensures 0 <= SharesOf(amount, bps)
    ensures SharesOf(amount, bps) * BASIS_POINTS <= amount * Total(bps)
    ensures bps != [] ==> amount * Total(bps) < (SharesOf(amount, bps) + |bps|) * BASIS_POINTS
  {
    if bps == [] {
    } else {
      var n := |bps| - 1;
      SharesBounds(amount, bps[..n]);
      ShareBounds(amount, bps[n]);
      assert amount * Total(bps) == amount * Total(bps[..n]) + amount * bps[n];
    }
  }

  lemma {:induction false} PrizeSumIsShares(amount: int, prizes: seq<u32>, n: nat)
    requires n < |prizes|
    ensures PrizeSum(amount, prizes, n) == SharesOf(amount, prizes[..n])
  {
    if n == 0 {
    } else {
      PrizeSumIsShares(amount, prizes, n - 1);
      assert prizes[..n][..n - 1] == prizes[..n - 1];
    }
  }

  /** The split conserves the pool, whatever the basis points are. */
  lemma TierPrizesSumToPool(amount: int, prizes: seq<u32>)
    requires prizes != []
    ensures PrizeSum(amount, prizes, |prizes|) == amount
  {
    PrizeSumIsShares(amount, prizes, |prizes| - 1);
  }

  /** With 10,000 basis points in all, the last tier gets at least its floor share and at
      most one unit more for each other tier. */
  lemma LastTierRemainder(amount: int, prizes: seq<u32>)
    requires 0 <= amount && prizes != [] && Total(prizes) == BASIS_POINTS
    ensures var last := |prizes| - 1;
            0 <= Share(amount, prizes[last]) <= TierPrize(amount, prizes, last)
              <= Share(amount, prizes[last]) + last
  {
    SharesBounds(amount, prizes);
    ShareBounds(amount, prizes[|prizes| - 1]);
    assert amount * Total(prizes) == amount * BASIS_POINTS;
  }

  /** A tier's prize is at least 1 when it has a basis point and the pool is at least 10,000. */
  lemma TierPrizeIsPositive(amount: int, prizes: seq<u32>, i: nat)
    requires amount >= BASIS_POINTS && i < |prizes| && Total(prizes) == BASIS_POINTS
    requires prizes[i] >= 1
    ensures TierPrize(amount, prizes, i) >= 1
  {
    ShareBounds(amount, prizes[i]);
    assert amount * prizes[i] >= amount;
    if i == |prizes| - 1 {
      LastTierRemainder(amount, prizes);
    }
  }

  lemma TierPrizeIsNonNegative(amount: int, prizes: seq<u32>, i: nat)
    requires amount >= 0 && i < |prizes| && Total(prizes) == BASIS_POINTS
    ensures TierPrize(amount, prizes, i) >= 0
  {
    ShareBounds(amount, prizes[i]);
    if i == |prizes| - 1 {
      LastTierRemainder(amount, prizes);
    }
  }

  lemma {:induction false} MemberBelowTotal(bps: seq<u32>, i: nat)
    requires i < |bps|
    ensures bps[i] <= Total(bps)
  {
    var n := |bps| - 1;
    if i < n {
      MemberBelowTotal(bps[..n], i);
    }
  }

  /** The contract's computation, with every `i128` step checked. Under a valid
      configuration no step overflows and it returns the reference split. */
  method CalculateTierPrize(amount: int, prizes: seq<u32>, tier: u32) returns (r: Result<int>)
    requires 0 <= amount <= MAX_PRIZE_AMOUNT
    ensures r == Err(InvalidParameters) <==> prizes == []
    ensures r == Err(InvalidIndex) <==> prizes != [] && tier >= |prizes|
    ensures Total(prizes) == BASIS_POINTS && tier < |prizes| ==> r == Ok(TierPrize(amount, prizes, tier))
    ensures r.Ok? ==> tier < |prizes| && r.value == TierPrize(amount, prizes, tier)
  {
    if prizes == [] {
      return Err(InvalidParameters);
    }
    if tier >= |prizes| {
      return Err(InvalidIndex);
    }
    var last := |prizes| - 1;
    if tier == last {
      var given := 0;
      var i := 0;
      while i < last
        invariant 0 <= i <= last
        invariant given == SharesOf(amount, prizes[..i]) && 0 <= given
      {
        assert prizes[..i + 1][..i] == prizes[..i];
        ShareBounds(amount, prizes[i]);
        assert amount * prizes[i] >= 0;
        var product := CheckedMul(amount, prizes[i]);
        SharesFit(amount, prizes, i);
        if product.Err? || given + product.value / BASIS_POINTS > I128_MAX {
          return Err(ArithmeticOverflow);
        }
        given := given + product.value / BASIS_POINTS;
        i := i + 1;
      }
      return Ok(amount - given);
    } else {
      ShareBounds(amount, prizes[tier]);
      SharesFit(amount, prizes, tier);
      var product := CheckedMul(amount, prizes[tier]);
      if product.Err? {
        return Err(ArithmeticOverflow);
      }
      return Ok(product.value / BASIS_POINTS);
    }
  }

  lemma SharesFit(amount: int, prizes: seq<u32>, i: nat)
    requires 0 <= amount <= MAX_PRIZE_AMOUNT && i < |prizes|
    ensures Total(prizes) == BASIS_POINTS ==>
              && amount * prizes[i] <= I128_MAX
              && SharesOf(amount, prizes[..i]) + Share(amount, prizes[i]) <= I128_MAX
  {
    if Total(prizes) == BASIS_POINTS {
      MemberBelowTotal(prizes, i);
      ProductIsMonotone(amount, prizes[i], BASIS_POINTS);
      var upTo := prizes[..i + 1];
      assert upTo[..i] == prizes[..i];
      SharesBounds(amount, upTo);
      TotalGrows(prizes, i + 1);
      ProductIsMonotone(amount, Total(upTo), BASIS_POINTS);
    }
  }
}
