/** Ticket pricing: bundle unit prices, the early-bird window and the protocol fee. */
module Pricing {
  import opened Common
  import opened Config

  datatype BuyQuote = BuyQuote(gross: int, discount: int, fee: int, netToPay: int, effectivePrice: int)

  /** The price of one ticket in a purchase of `quantity`: the last bundle that the
      quantity reaches, or the list price. */
  function UnitPrice(listPrice: int, bundles: seq<Bundle>, quantity: nat): int
  {
    if bundles == [] then listPrice
    else
      var b := bundles[|bundles| - 1];
      if b.quantity <= quantity then b.price else UnitPrice(listPrice, bundles[..|bundles| - 1], quantity)
  }

  /** Tickets with an id up to this number are sold at the early-bird price. */
  function EarlyBirdCap(c: Config): nat
  {
    (c.maxTickets * c.earlyBirdPercentage) / 100
  }

  function DiscountPerTicket(c: Config, unit: int): int
  {
    (unit * c.earlyBirdDiscountBp) / BASIS_POINTS
  }

  /** How many of the next `quantity` tickets are early birds. */
  function EarlyBirds(c: Config, sold: nat, quantity: nat): nat
  {
    if sold < EarlyBirdCap(c) then Min(EarlyBirdCap(c) - sold, quantity) else 0
  }

  function CostAt(c: Config, unit: int, sold: nat, quantity: nat): int
  {
    unit * quantity - DiscountPerTicket(c, unit) * EarlyBirds(c, sold, quantity)
  }

  /** What a buyer pays for the next `quantity` tickets. */
  function Cost(c: Config, sold: nat, quantity: nat): int
  {
    CostAt(c, UnitPrice(c.ticketPrice, c.bundles, quantity), sold, quantity)
  }

  function FeeOn(amount: int, feeBp: u32): int
  {
    (amount * feeBp) / BASIS_POINTS
  }

  // ---------------------------------------------------------------------------
  // The quote as the contract computes it

  /** No checked `i128` step of the quote overflows. */
  predicate QuoteFits(c: Config, sold: nat, feeBp: u32, quantity: nat)
  {
    var unit := UnitPrice(c.ticketPrice, c.bundles, quantity);
    && unit * quantity <= I128_MAX
    && (EarlyBirdApplies(c, sold) ==> unit * c.earlyBirdDiscountBp <= I128_MAX)
    && Cost(c, sold, quantity) * feeBp <= I128_MAX
  }

  predicate EarlyBirdApplies(c: Config, sold: nat)
  {
    c.earlyBirdPercentage > 0 && c.earlyBirdDiscountBp > 0 && sold < EarlyBirdCap(c)
  }

  function Quote(c: Config, sold: nat, feeBp: u32, quantity: nat): (r: Result<BuyQuote>)
  {
    if quantity == 0 then Err(InvalidQuantity)
    else if !QuoteFits(c, sold, feeBp, quantity) then Err(ArithmeticOverflow)
    else
      var gross := UnitPrice(c.ticketPrice, c.bundles, quantity) * quantity;
      var cost := Cost(c, sold, quantity);
      Ok(BuyQuote(gross, gross - cost, FeeOn(cost, feeBp), cost, cost / quantity))
  }

  ghost predicate PositivePrices(c: Config)
  {
    && c.ticketPrice > 0 && EarlyBirdOk(c)
    && forall i :: 0 <= i < |c.bundles| ==> c.bundles[i].price > 0
  }

  lemma {:induction false} UnitIsPositive(listPrice: int, bundles: seq<Bundle>, quantity: nat)
    requires listPrice > 0 && forall i :: 0 <= i < |bundles| ==> bundles[i].price > 0
    ensures UnitPrice(listPrice, bundles, quantity) > 0
    decreases |bundles|
  {
    if bundles != [] && bundles[|bundles| - 1].quantity > quantity {
      UnitIsPositive(listPrice, bundles[..|bundles| - 1], quantity);
    }
  }

  lemma DiscountBounds(c: Config, unit: int)
    requires unit >= 0 && c.earlyBirdDiscountBp <= BASIS_POINTS
    ensures 0 <= DiscountPerTicket(c, unit) <= unit
  {
    ProductIsMonotone(unit, 0, c.earlyBirdDiscountBp);
    ProductIsMonotone(unit, c.earlyBirdDiscountBp, BASIS_POINTS);
  }

  lemma NoWindowNoEarlyBirds(c: Config, sold: nat, quantity: nat)
    requires c.earlyBirdPercentage == 0
    ensures EarlyBirds(c, sold, quantity) == 0
  {
    assert EarlyBirdCap(c) == 0;
  }

  lemma CostBounds(c: Config, unit: int, sold: nat, quantity: nat)
    requires unit >= 0 && EarlyBirdOk(c)
    ensures 0 <= DiscountPerTicket(c, unit) * EarlyBirds(c, sold, quantity)
    ensures 0 <= CostAt(c, unit, sold, quantity) <= unit * quantity
  {
    var d, e := DiscountPerTicket(c, unit), EarlyBirds(c, sold, quantity);
    if c.earlyBirdPercentage == 0 {
      NoWindowNoEarlyBirds(c, sold, quantity);
      ProductIsMonotone(unit, 0, quantity);
    } else {
      DiscountBounds(c, unit);
      ProductIsMonotone(d, 0, e);
      ProductIsMonotone(e, d, unit);
      ProductIsMonotone(unit, e, quantity);
    }
  }

  /** The quote shared by purchases and previews, check by check. */
  method CalculateBuyQuote(c: Config, sold: nat, feeBp: u32, quantity: u32) returns (r: Result<BuyQuote>)
    requires PositivePrices(c)
    ensures r == Quote(c, sold, feeBp, quantity)
  {
    if quantity == 0 {
      return Err(InvalidQuantity);
    }
    var unit := c.ticketPrice;
    var i := 0;
    while i < |c.bundles|
      invariant 0 <= i <= |c.bundles|
      invariant unit == UnitPrice(c.ticketPrice, c.bundles[..i], quantity)
    {
      assert c.bundles[..i + 1][..i] == c.bundles[..i];
      if c.bundles[i].quantity <= quantity {
        unit := c.bundles[i].price;
      }
      i := i + 1;
    }
    assert c.bundles[..i] == c.bundles;
    UnitIsPositive(c.ticketPrice, c.bundles, quantity);
    var gross := unit * quantity;
    if gross > I128_MAX {
      return Err(ArithmeticOverflow);
    }
    var discount := 0;
    CostBounds(c, unit, sold, quantity);
    NoDiscountOutsideWindow(c, unit, sold, quantity);
    if c.earlyBirdPercentage > 0 && c.earlyBirdDiscountBp > 0 {
      var cap := (c.maxTickets * c.earlyBirdPercentage) / 100;
      if sold < cap {
        var remaining := Min(cap - sold, quantity);
        if unit * c.earlyBirdDiscountBp > I128_MAX {
          return Err(ArithmeticOverflow);
        }
        var perTicket := (unit * c.earlyBirdDiscountBp) / BASIS_POINTS;
        // perTicket * remaining <= gross, so this product cannot overflow
        discount := perTicket * remaining;
      }
    }
    var afterDiscount := gross - discount;
    if afterDiscount * feeBp > I128_MAX {
      return Err(ArithmeticOverflow);
    }
    var fee := (afterDiscount * feeBp) / BASIS_POINTS;
    return Ok(BuyQuote(gross, discount, fee, afterDiscount, afterDiscount / quantity));
  }

  lemma NoDiscountOutsideWindow(c: Config, unit: int, sold: nat, quantity: nat)
    ensures !EarlyBirdApplies(c, sold) ==> DiscountPerTicket(c, unit) * EarlyBirds(c, sold, quantity) == 0
  {
    if c.earlyBirdDiscountBp == 0 {
      assert DiscountPerTicket(c, unit) == 0;
    } else if c.earlyBirdPercentage == 0 {
      assert EarlyBirdCap(c) == 0;
    }
  }

  /** Under the validated bounds a quote at the list price never overflows. */
  lemma ListUnitFits(c: Config, sold: nat, feeBp: u32, quantity: nat)
    requires 0 < c.ticketPrice <= MAX_PRIZE_AMOUNT && EarlyBirdOk(c)
    requires UnitPrice(c.ticketPrice, c.bundles, quantity) == c.ticketPrice
    requires feeBp <= BASIS_POINTS && quantity <= MAX_TICKETS_LIMIT
    ensures QuoteFits(c, sold, feeBp, quantity)
  {
    var p, cost := c.ticketPrice, Cost(c, sold, quantity);
    CostBounds(c, p, sold, quantity);
    ProductsFit(p, quantity, MAX_PRIZE_AMOUNT, MAX_TICKETS_LIMIT);
    if EarlyBirdApplies(c, sold) {
      ProductsFit(p, c.earlyBirdDiscountBp, MAX_PRIZE_AMOUNT, BASIS_POINTS);
    }
    ProductsFit(cost, feeBp, MAX_PRIZE_AMOUNT * MAX_TICKETS_LIMIT, BASIS_POINTS);
  }

  /** So without bundles no quote overflows. */
  lemma ListQuoteFits(c: Config, sold: nat, feeBp: u32, quantity: nat)
    requires 0 < c.ticketPrice <= MAX_PRIZE_AMOUNT && c.bundles == [] && EarlyBirdOk(c)
    requires feeBp <= BASIS_POINTS && quantity <= MAX_TICKETS_LIMIT
    ensures QuoteFits(c, sold, feeBp, quantity)
  {
    ListUnitFits(c, sold, feeBp, quantity);
  }

  lemma ProductsFit(a: int, b: int, maxA: int, maxB: int)
    requires 0 <= a <= maxA && 0 <= b <= maxB
    ensures a * b <= maxA * maxB
  {
    ProductIsMonotone(a, b, maxB);
    ProductIsMonotone(maxB, a, maxA);
  }

  // ---------------------------------------------------------------------------
  // Splitting a purchase

  lemma EarlyBirdsSplit(c: Config, sold: nat, q1: nat, q2: nat)
    ensures EarlyBirds(c, sold, q1 + q2) == EarlyBirds(c, sold, q1) + EarlyBirds(c, sold + q1, q2)
  {
  }

  /** At a fixed unit price, splitting a purchase changes nothing. */
  lemma CostSplits(c: Config, unit: int, sold: nat, q1: nat, q2: nat)
    ensures CostAt(c, unit, sold, q1 + q2) == CostAt(c, unit, sold, q1) + CostAt(c, unit, sold + q1, q2)
  {
    EarlyBirdsSplit(c, sold, q1, q2);
    var d, e1, e2 := DiscountPerTicket(c, unit), EarlyBirds(c, sold, q1), EarlyBirds(c, sold + q1, q2);
    assert d * (e1 + e2) == d * e1 + d * e2;
    assert unit * (q1 + q2) == unit * q1 + unit * q2;
  }

  /** Without bundles a quote is split-invariant. */
  lemma QuoteIsSplitInvariant(c: Config, sold: nat, q1: nat, q2: nat)
    requires c.bundles == []
    ensures Cost(c, sold, q1 + q2) == Cost(c, sold, q1) + Cost(c, sold + q1, q2)
  {
    CostSplits(c, c.ticketPrice, sold, q1, q2);
  }

  /** The price recorded for ticket `id` by the solvency check. */
  function TicketPayment(c: Config, id: nat): int
  {
    if id > EarlyBirdCap(c) || c.earlyBirdDiscountBp == 0 then c.ticketPrice
    else c.ticketPrice - DiscountPerTicket(c, c.ticketPrice)
  }

  function PaymentsUpTo(c: Config, n: nat): int
  {
    if n == 0 then 0 else PaymentsUpTo(c, n - 1) + TicketPayment(c, n)
  }

  lemma OneTicketCost(c: Config, sold: nat)
    requires c.bundles == []
    ensures Cost(c, sold, 1) == TicketPayment(c, sold + 1)
  {
    var d := DiscountPerTicket(c, c.ticketPrice);
    assert c.earlyBirdDiscountBp == 0 ==> d == 0;
    assert d * EarlyBirds(c, sold, 1) == if sold < EarlyBirdCap(c) then d else 0;
  }

  lemma {:induction false} CostIsPayments(c: Config, sold: nat, quantity: nat)
    requires c.bundles == []
    ensures PaymentsUpTo(c, sold + quantity) == PaymentsUpTo(c, sold) + Cost(c, sold, quantity)
    decreases quantity
  {
    if quantity == 0 {
    } else {
      CostIsPayments(c, sold, quantity - 1);
      QuoteIsSplitInvariant(c, sold, quantity - 1, 1);
      OneTicketCost(c, sold + quantity - 1);
    }
  }

  // ---------------------------------------------------------------------------
  // The volume reported to the leaderboard

  /** The closed form reported at finalisation rounds the discounted price down. */
  function LeaderboardVolume(c: Config, sold: nat): int
  {
    var early := Min(sold, EarlyBirdCap(c));
    early * ((c.ticketPrice * (BASIS_POINTS - c.earlyBirdDiscountBp)) / BASIS_POINTS)
      + (sold - early) * c.ticketPrice
  }

  lemma DiscountedPrices(c: Config) returns (gap: int)
    ensures c.ticketPrice - DiscountPerTicket(c, c.ticketPrice)
         == (c.ticketPrice * (BASIS_POINTS - c.earlyBirdDiscountBp)) / BASIS_POINTS + gap
    ensures gap == if (c.ticketPrice * c.earlyBirdDiscountBp) % BASIS_POINTS == 0 then 0 else 1
  {
    var x := c.ticketPrice * c.earlyBirdDiscountBp;
    assert c.ticketPrice * (BASIS_POINTS - c.earlyBirdDiscountBp) == c.ticketPrice * BASIS_POINTS - x;
    gap := if x % BASIS_POINTS == 0 then 0 else 1;
  }

  /** Purchases charge exactly one unit more than the reported volume for each early-bird
      ticket whose discount does not come out even, and nothing more otherwise. */
  lemma {:induction false} VolumeGap(c: Config, sold: nat)
    requires c.bundles == []
    ensures Cost(c, 0, sold) - LeaderboardVolume(c, sold)
         == if (c.ticketPrice * c.earlyBirdDiscountBp) % BASIS_POINTS == 0 then 0
            else Min(sold, EarlyBirdCap(c))
  {
    var gap := DiscountedPrices(c);
    var p, d, e := c.ticketPrice, DiscountPerTicket(c, c.ticketPrice), EarlyBirds(c, 0, sold);
    assert e == Min(sold, EarlyBirdCap(c));
    var low := (p * (BASIS_POINTS - c.earlyBirdDiscountBp)) / BASIS_POINTS;
    assert p * sold == p * e + (sold - e) * p;
    assert p * e - d * e == (p - d) * e == (low + gap) * e == low * e + gap * e;
  }

  // ---------------------------------------------------------------------------
  // Bundles

  ghost predicate Eligible(bundles: seq<Bundle>, i: nat, quantity: nat)
  {
    i < |bundles| && bundles[i].quantity <= quantity
  }

  /** Under validated bundles the unit price is the cheapest eligible one. */
  lemma {:induction false} UnitIsCheapest(listPrice: int, bundles: seq<Bundle>, quantity: nat)
    requires BundlesOk(bundles)
    ensures var unit := UnitPrice(listPrice, bundles, quantity);
            && (forall i: nat :: Eligible(bundles, i, quantity) ==> unit <= bundles[i].price)
            && (unit == listPrice || exists i: nat :: Eligible(bundles, i, quantity) && unit == bundles[i].price)
            && ((forall i: nat :: !Eligible(bundles, i, quantity)) ==> unit == listPrice)
    decreases |bundles|
  {
    if bundles == [] {
    } else {
      var n := |bundles| - 1;
      if bundles[n].quantity <= quantity {
        assert Eligible(bundles, n, quantity);
      } else {
        var init := bundles[..n];
        UnitIsCheapest(listPrice, init, quantity);
        forall i: nat
          ensures Eligible(bundles, i, quantity) <==> Eligible(init, i, quantity)
        {
        }
        if UnitPrice(listPrice, init, quantity) != listPrice {
          var i: nat :| Eligible(init, i, quantity) && UnitPrice(listPrice, init, quantity) == init[i].price;
          assert Eligible(bundles, i, quantity);
        }
      }
    }
  }

  /** The list price is undercut, or never used: no bundle costs more than a smaller purchase. */
  ghost predicate NoBundlePenalty(c: Config)
  {
    c.bundles == [] || c.bundles[0].quantity == 1 || c.bundles[0].price <= c.ticketPrice
  }

  /** Buying more at once never raises the unit price. */
  lemma UnitFalls(c: Config, q1: nat, q2: nat)
    requires BundlesOk(c.bundles) && NoBundlePenalty(c) && 1 <= q1 <= q2
    ensures UnitPrice(c.ticketPrice, c.bundles, q2) <= UnitPrice(c.ticketPrice, c.bundles, q1)
  {
    UnitIsCheapest(c.ticketPrice, c.bundles, q1);
    UnitIsCheapest(c.ticketPrice, c.bundles, q2);
    var u1, u2 := UnitPrice(c.ticketPrice, c.bundles, q1), UnitPrice(c.ticketPrice, c.bundles, q2);
    if i: nat :| Eligible(c.bundles, i, q1) && u1 == c.bundles[i].price {
      assert Eligible(c.bundles, i, q2);
    } else if j: nat :| Eligible(c.bundles, j, q2) && u2 == c.bundles[j].price {
      assert Eligible(c.bundles, 0, q2);
      if c.bundles[0].quantity == 1 {
        assert Eligible(c.bundles, 0, q1);
        assert false by { SomeEligibleIsUsed(c.ticketPrice, c.bundles, q1, 0); }
      }
    }
  }

  lemma {:induction false} SomeEligibleIsUsed(listPrice: int, bundles: seq<Bundle>, quantity: nat, i: nat)
    requires Eligible(bundles, i, quantity)
    ensures exists j: nat :: Eligible(bundles, j, quantity) && UnitPrice(listPrice, bundles, quantity) == bundles[j].price
    decreases |bundles|
  {
    var n := |bundles| - 1;
    if bundles[n].quantity <= quantity {
      assert Eligible(bundles, n, quantity);
    } else {
      SomeEligibleIsUsed(listPrice, bundles[..n], quantity, i);
      var j: nat :| Eligible(bundles[..n], j, quantity) && UnitPrice(listPrice, bundles[..n], quantity) == bundles[..n][j].price;
      assert Eligible(bundles, j, quantity);
    }
  }

  lemma CostRisesWithUnit(c: Config, low: int, high: int, sold: nat, quantity: nat)
    requires 0 <= low <= high && EarlyBirdOk(c)
    ensures CostAt(c, low, sold, quantity) <= CostAt(c, high, sold, quantity)
  {
    var e := EarlyBirds(c, sold, quantity);
    if c.earlyBirdPercentage == 0 {
      NoWindowNoEarlyBirds(c, sold, quantity);
      ProductIsMonotone(quantity, low, high);
      return;
    }
    DiscountRises(c, low, high);
    RiseArithmetic(low, high, DiscountPerTicket(c, low), DiscountPerTicket(c, high), e, quantity);
  }

  lemma DiscountRises(c: Config, low: int, high: int)
    requires 0 <= low <= high && c.earlyBirdDiscountBp <= BASIS_POINTS
    ensures DiscountPerTicket(c, high) - DiscountPerTicket(c, low) <= high - low
  {
    var bp := c.earlyBirdDiscountBp;
    ProductIsMonotone(high - low, bp, BASIS_POINTS);
    assert high * bp == low * bp + (high - low) * bp;
  }

  lemma RiseArithmetic(low: int, high: int, dl: int, dh: int, e: int, q: int)
    requires low <= high && dh - dl <= high - low && 0 <= e <= q
    ensures low * q - dl * e <= high * q - dh * e
  {
    ProductIsMonotone(e, dh - dl, high - low);
    ProductIsMonotone(high - low, e, q);
    assert (dh - dl) * e == dh * e - dl * e;
    assert (high - low) * q == high * q - low * q;
  }

  ghost predicate NoWorseTogether(c: Config, sold: nat, q1: nat, q2: nat)
  {
    Cost(c, sold, q1 + q2) <= Cost(c, sold, q1) + Cost(c, sold + q1, q2)
  }

  lemma TogetherIsNoWorse(c: Config, sold: nat, q1: nat, q2: nat)
    requires BundlesOk(c.bundles) && c.ticketPrice > 0 && EarlyBirdOk(c)
    requires NoBundlePenalty(c) && q1 >= 1 && q2 >= 1
    ensures NoWorseTogether(c, sold, q1, q2)
  {
    var u := UnitPrice(c.ticketPrice, c.bundles, q1 + q2);
    UnitIsPositive(c.ticketPrice, c.bundles, q1 + q2);
    UnitFalls(c, q1, q1 + q2);
    UnitFalls(c, q2, q1 + q2);
    CostSplits(c, u, sold, q1, q2);
    CostRisesWithUnit(c, u, UnitPrice(c.ticketPrice, c.bundles, q1), sold, q1);
    CostRisesWithUnit(c, u, UnitPrice(c.ticketPrice, c.bundles, q2), sold + q1, q2);
  }

  lemma ListPriceBelow(listPrice: int, bundles: seq<Bundle>, quantity: nat)
    requires BundlesOk(bundles) && bundles != [] && quantity < bundles[0].quantity
    ensures UnitPrice(listPrice, bundles, quantity) == listPrice
  {
    UnitIsCheapest(listPrice, bundles, quantity);
    forall i: nat
      ensures !Eligible(bundles, i, quantity)
    {
    }
  }

  lemma FirstBundleAt(listPrice: int, bundles: seq<Bundle>)
    requires BundlesOk(bundles) && bundles != []
    ensures UnitPrice(listPrice, bundles, bundles[0].quantity) == bundles[0].price
  {
    SomeEligibleIsUsed(listPrice, bundles, bundles[0].quantity, 0);
  }

  // ---------------------------------------------------------------------------
  // Purchases the caps allow

  /** Two purchases one address can make in a row, which it could also make as one. */
  predicate WithinCaps(c: Config, sold: nat, q1: nat, q2: nat)
  {
    && q1 >= 1 && q2 >= 1
    && q1 + q2 <= c.maxPerTx
    && (c.maxPerAddress > 0 ==> q1 + q2 <= c.maxPerAddress)
    && sold + q1 + q2 <= c.maxTickets
  }

  /** The most tickets one purchase can be for. */
  function LargestPurchase(c: Config): nat
  {
    Min(Min(c.maxPerTx, c.maxTickets), if c.maxPerAddress > 0 then c.maxPerAddress else c.maxTickets)
  }

  function NetPrice(c: Config, unit: int): int
  {
    unit - DiscountPerTicket(c, unit)
  }

  /** Some bundle within the caps costs more per ticket than the smaller purchases below it: the
      first one does, at full price if any ticket is sold outside the early-bird window, and
      otherwise net of the discount. */
  predicate DearerBundleInReach(c: Config)
  {
    && c.bundles != [] && 2 <= c.bundles[0].quantity <= LargestPurchase(c)
    && c.bundles[0].price > c.ticketPrice
    && (EarlyBirdCap(c) < c.maxTickets || NetPrice(c, c.bundles[0].price) > NetPrice(c, c.ticketPrice))
  }

  /** Where the first bundle shows its price: it sells the last tickets. */
  function LateSold(c: Config): nat
    requires c.bundles != [] && c.bundles[0].quantity <= c.maxTickets
  {
    c.maxTickets - c.bundles[0].quantity
  }

  lemma CostSplitsByWindow(c: Config, unit: int, sold: nat, quantity: nat)
    ensures var e := EarlyBirds(c, sold, quantity);
            CostAt(c, unit, sold, quantity) == NetPrice(c, unit) * e + unit * (quantity - e)
  {
    var e, d := EarlyBirds(c, sold, quantity), DiscountPerTicket(c, unit);
    assert (unit - d) * e == unit * e - d * e;
    assert unit * (quantity - e) == unit * quantity - unit * e;
  }

  lemma NetPriceRises(c: Config, low: int, high: int)
    requires 0 <= low <= high && c.earlyBirdDiscountBp <= BASIS_POINTS
    ensures NetPrice(c, low) <= NetPrice(c, high)
  {
    DiscountRises(c, low, high);
  }

  /** Buying up to the first bundle costs more than stopping one short and buying one more. */
  lemma PenaltyIsReal(c: Config)
    requires TicketsOk(c) && BundlesOk(c.bundles) && c.ticketPrice > 0 && EarlyBirdOk(c) && DearerBundleInReach(c)
    ensures var q := c.bundles[0].quantity;
            WithinCaps(c, LateSold(c), q - 1, 1) && !NoWorseTogether(c, LateSold(c), q - 1, 1)
  {
    var b, sold := c.bundles[0], LateSold(c);
    var q := b.quantity;
    ListPriceBelow(c.ticketPrice, c.bundles, q - 1);
    ListPriceBelow(c.ticketPrice, c.bundles, 1);
    FirstBundleAt(c.ticketPrice, c.bundles);
    assert CostAt(c, c.ticketPrice, sold, q) == Cost(c, sold, q - 1) + Cost(c, sold + (q - 1), 1) by {
      CostSplits(c, c.ticketPrice, sold, q - 1, 1);
    }
    assert CostAt(c, c.ticketPrice, sold, q) < CostAt(c, b.price, sold, q) by {
      WindowAtEnd(c, sold, q);
      DearerAt(c, c.ticketPrice, b.price, sold, q);
    }
  }

  lemma WindowAtEnd(c: Config, sold: nat, q: nat)
    requires sold + q == c.maxTickets && q >= 1
    ensures EarlyBirdCap(c) < c.maxTickets ==> EarlyBirds(c, sold, q) < q
    ensures EarlyBirds(c, sold, q) > 0 ==> c.earlyBirdPercentage > 0
  {
    if c.earlyBirdPercentage == 0 {
      NoWindowNoEarlyBirds(c, sold, q);
    }
  }

  lemma DearerAt(c: Config, low: int, high: int, sold: nat, q: nat)
    requires 0 <= low < high && EarlyBirdOk(c) && q >= 1
    requires EarlyBirds(c, sold, q) == 0 || c.earlyBirdPercentage > 0
    requires EarlyBirds(c, sold, q) < q || NetPrice(c, high) > NetPrice(c, low)
    ensures CostAt(c, low, sold, q) < CostAt(c, high, sold, q)
  {
    CostSplitsByWindow(c, low, sold, q);
    CostSplitsByWindow(c, high, sold, q);
    DearerCosts(c, low, high, q, EarlyBirds(c, sold, q));
  }

  lemma DearerCosts(c: Config, low: int, high: int, q: nat, e: nat)
    requires 0 <= low < high && EarlyBirdOk(c) && e <= q && q >= 1
    requires e == 0 || c.earlyBirdPercentage > 0
    requires e < q || NetPrice(c, high) > NetPrice(c, low)
    ensures NetPrice(c, low) * e + low * (q - e) < NetPrice(c, high) * e + high * (q - e)
  {
    var nl, nh := NetPrice(c, low), NetPrice(c, high);
    if e > 0 {
      NetPriceRises(c, low, high);
    }
    assert (nh - nl) * e == nh * e - nl * e;
    assert (high - low) * (q - e) == high * (q - e) - low * (q - e);
    if e > 0 {
      ProductIsMonotone(nh - nl, 0, e);
    }
    if e < q {
      ProductIsMonotone(high - low, 1, q - e);
    } else {
      ProductIsMonotone(nh - nl, 1, e);
    }
  }

  /** Above the first bundle the unit price only falls. */
  lemma UnitFallsAbove(c: Config, q1: nat, q2: nat)
    requires BundlesOk(c.bundles) && c.bundles != [] && c.bundles[0].quantity <= q1 <= q2
    ensures UnitPrice(c.ticketPrice, c.bundles, q2) <= UnitPrice(c.ticketPrice, c.bundles, q1) <= c.bundles[0].price
  {
    UnitIsCheapest(c.ticketPrice, c.bundles, q2);
    UnitIsCheapest(c.ticketPrice, c.bundles, q1);
    SomeEligibleIsUsed(c.ticketPrice, c.bundles, q1, 0);
    var j: nat :| Eligible(c.bundles, j, q1) && UnitPrice(c.ticketPrice, c.bundles, q1) == c.bundles[j].price;
    assert Eligible(c.bundles, j, q2) && Eligible(c.bundles, 0, q1);
  }

  /** Inside an early-bird window that covers every ticket, net unit prices only fall. */
  lemma NetUnitFalls(c: Config, q1: nat, q2: nat)
    requires BundlesOk(c.bundles) && c.bundles != [] && 1 <= q1 <= q2 && c.ticketPrice > 0
    requires c.earlyBirdDiscountBp <= BASIS_POINTS
    requires NetPrice(c, c.bundles[0].price) <= NetPrice(c, c.ticketPrice)
    ensures NetPrice(c, UnitPrice(c.ticketPrice, c.bundles, q2)) <= NetPrice(c, UnitPrice(c.ticketPrice, c.bundles, q1))
  {
    UnitIsPositive(c.ticketPrice, c.bundles, q2);
    if c.bundles[0].quantity <= q1 {
      UnitFallsAbove(c, q1, q2);
      NetPriceRises(c, UnitPrice(c.ticketPrice, c.bundles, q2), UnitPrice(c.ticketPrice, c.bundles, q1));
    } else if q2 < c.bundles[0].quantity {
      ListPriceBelow(c.ticketPrice, c.bundles, q1);
      ListPriceBelow(c.ticketPrice, c.bundles, q2);
    } else {
      ListPriceBelow(c.ticketPrice, c.bundles, q1);
      UnitFallsAbove(c, q2, q2);
      NetPriceRises(c, UnitPrice(c.ticketPrice, c.bundles, q2), c.bundles[0].price);
    }
  }

  lemma AllEarlyIsNoWorse(c: Config, sold: nat, q1: nat, q2: nat)
    requires BundlesOk(c.bundles) && c.bundles != [] && c.ticketPrice > 0 && c.earlyBirdDiscountBp <= BASIS_POINTS
    requires q1 >= 1 && q2 >= 1 && sold + q1 + q2 <= EarlyBirdCap(c)
    requires NetPrice(c, c.bundles[0].price) <= NetPrice(c, c.ticketPrice)
    ensures NoWorseTogether(c, sold, q1, q2)
  {
    var u := UnitPrice(c.ticketPrice, c.bundles, q1 + q2);
    var u1, u2 := UnitPrice(c.ticketPrice, c.bundles, q1), UnitPrice(c.ticketPrice, c.bundles, q2);
    CostSplits(c, u, sold, q1, q2);
    AllEarlyCost(c, u, u1, sold, q1);
    AllEarlyCost(c, u, u2, sold + q1, q2);
    NetUnitFalls(c, q1, q1 + q2);
    NetUnitFalls(c, q2, q1 + q2);
  }

  lemma AllEarlyCost(c: Config, low: int, high: int, sold: nat, q: nat)
    requires sold + q <= EarlyBirdCap(c)
    ensures NetPrice(c, low) <= NetPrice(c, high) ==> CostAt(c, low, sold, q) <= CostAt(c, high, sold, q)
  {
    CostSplitsByWindow(c, low, sold, q);
    CostSplitsByWindow(c, high, sold, q);
    if NetPrice(c, low) <= NetPrice(c, high) {
      ProductIsMonotone(q, NetPrice(c, low), NetPrice(c, high));
    }
  }

  lemma ListOnlyIsNoWorse(c: Config, sold: nat, q1: nat, q2: nat)
    requires BundlesOk(c.bundles) && c.bundles != [] && q1 + q2 < c.bundles[0].quantity
    ensures NoWorseTogether(c, sold, q1, q2)
  {
    ListPriceBelow(c.ticketPrice, c.bundles, q1 + q2);
    ListPriceBelow(c.ticketPrice, c.bundles, q1);
    ListPriceBelow(c.ticketPrice, c.bundles, q2);
    CostSplits(c, c.ticketPrice, sold, q1, q2);
  }

  lemma WindowIsOpen(c: Config)
    ensures EarlyBirdCap(c) > 0 ==> c.earlyBirdPercentage > 0
  {
  }

  lemma OutOfReachIsNoWorse(c: Config, sold: nat, q1: nat, q2: nat)
    requires TicketsOk(c) && BundlesOk(c.bundles) && c.ticketPrice > 0 && EarlyBirdOk(c)
    requires !DearerBundleInReach(c) && WithinCaps(c, sold, q1, q2)
    ensures NoWorseTogether(c, sold, q1, q2)
  {
    if NoBundlePenalty(c) {
      TogetherIsNoWorse(c, sold, q1, q2);
    } else if c.bundles[0].quantity > LargestPurchase(c) {
      ListOnlyIsNoWorse(c, sold, q1, q2);
    } else {
      WindowIsOpen(c);
      AllEarlyIsNoWorse(c, sold, q1, q2);
    }
  }

  /** Validation does not compare the first bundle with the list price, so one larger purchase
      can cost more than two smaller ones. Among the purchases the caps allow it never does,
      early birds included, exactly when no dearer bundle is in reach. */
  lemma BundlesNeverPenaliseIff(c: Config)
    requires TicketsOk(c) && BundlesOk(c.bundles) && c.ticketPrice > 0 && EarlyBirdOk(c)
    ensures !DearerBundleInReach(c)
       <==> forall sold: nat, q1: nat, q2: nat :: WithinCaps(c, sold, q1, q2) ==> NoWorseTogether(c, sold, q1, q2)
  {
    if DearerBundleInReach(c) {
      PenaltyIsReal(c);
    } else {
      forall sold: nat, q1: nat, q2: nat | WithinCaps(c, sold, q1, q2)
        ensures NoWorseTogether(c, sold, q1, q2)
      {
        OutOfReachIsNoWorse(c, sold, q1, q2);
      }
    }
  }

  // ---------------------------------------------------------------------------
  // What prices, discounts and fees come to

  /** `part` is the whole number of units in `amount * rate / per`, rounded down. */
  predicate RoundsDown(part: int, amount: int, rate: int, per: int)
  {
    per * part <= amount * rate < per * (part + 1)
  }

  predicate RoundsUp(part: int, amount: int, rate: int, per: int)
  {
    per * (part - 1) < amount * rate <= per * part
  }

  lemma QuotientRoundsDown(product: int, per: int)
    requires per > 0
    ensures per * (product / per) <= product < per * (product / per + 1)
  {
    assert per * (product / per + 1) == per * (product / per) + per;
  }

  lemma FeeRoundsDown(amount: int, feeBp: u32)
    ensures RoundsDown(FeeOn(amount, feeBp), amount, feeBp, BASIS_POINTS)
  {
    QuotientRoundsDown(amount * feeBp, BASIS_POINTS);
  }

  /** A ticket whose number is within the early-bird share of all tickets. */
  predicate IsEarly(c: Config, id: int)
  {
    100 * id <= c.maxTickets * c.earlyBirdPercentage
  }

  lemma EarlyIffWithinCap(c: Config, id: int)
    ensures IsEarly(c, id) <==> id <= EarlyBirdCap(c)
  {
    QuotientRoundsDown(c.maxTickets * c.earlyBirdPercentage, 100);
    assert 100 * id < 100 * (EarlyBirdCap(c) + 1) <==> id <= EarlyBirdCap(c);
  }

  lemma {:induction false} EarlyTicketsCount(c: Config, sold: nat, quantity: nat)
    ensures |set id | sold < id <= sold + quantity && IsEarly(c, id)| == EarlyBirds(c, sold, quantity)
    decreases quantity
  {
    var early := set id | sold < id <= sold + quantity && IsEarly(c, id);
    if quantity == 0 {
      assert early == {};
    } else {
      var last := sold + quantity;
      var before := set id | sold < id <= sold + (quantity - 1) && IsEarly(c, id);
      EarlyTicketsCount(c, sold, quantity - 1);
      EarlyIffWithinCap(c, last);
      assert early == before + if IsEarly(c, last) then {last} else {};
    }
  }

  /** A purchase costs its unit price for each ticket, less the discount, rounded down, for each
      ticket numbered within the early-bird share. */
  lemma CostOfTickets(c: Config, sold: nat, quantity: nat) returns (discount: int)
    ensures var unit := UnitPrice(c.ticketPrice, c.bundles, quantity);
            && RoundsDown(discount, unit, c.earlyBirdDiscountBp, BASIS_POINTS)
            && Cost(c, sold, quantity) ==
               unit * quantity - discount * |set id | sold < id <= sold + quantity && IsEarly(c, id)|
  {
    var unit := UnitPrice(c.ticketPrice, c.bundles, quantity);
    discount := DiscountPerTicket(c, unit);
    QuotientRoundsDown(unit * c.earlyBirdDiscountBp, BASIS_POINTS);
    EarlyTicketsCount(c, sold, quantity);
  }

  /** Without bundles the next ticket is discounted exactly when its own number is within the
      early-bird share. */
  lemma NextTicketCosts(c: Config, sold: nat) returns (discount: int)
    requires c.bundles == []
    ensures RoundsDown(discount, c.ticketPrice, c.earlyBirdDiscountBp, BASIS_POINTS)
    ensures Cost(c, sold, 1) ==
            if 100 * (sold + 1) <= c.maxTickets * c.earlyBirdPercentage then c.ticketPrice - discount else c.ticketPrice
  {
    discount := CostOfTickets(c, sold, 1);
    var early := set id | sold < id <= sold + 1 && IsEarly(c, id);
    assert early == if IsEarly(c, sold + 1) then {sold + 1} else {};
    assert discount * |early| == if IsEarly(c, sold + 1) then discount else 0;
  }

  /** A quote fails exactly for no tickets at all or when a product the contract checks overflows;
      the discount is only computed while the next ticket is an early one. */
  lemma QuoteFailsIff(c: Config, sold: nat, feeBp: u32, quantity: nat)
    ensures var unit := UnitPrice(c.ticketPrice, c.bundles, quantity);
            Quote(c, sold, feeBp, quantity).Err? <==>
              || quantity == 0 || unit * quantity > I128_MAX
              || (c.earlyBirdDiscountBp > 0 && IsEarly(c, sold + 1) && unit * c.earlyBirdDiscountBp > I128_MAX)
              || Cost(c, sold, quantity) * feeBp > I128_MAX
  {
    EarlyIffWithinCap(c, sold + 1);
    if c.earlyBirdPercentage == 0 {
      NoWindowNoEarlyBirds(c, sold, quantity);
      assert EarlyBirdCap(c) == 0;
    }
  }

  /** What a quote tells the buyer. */
  lemma QuoteMeans(c: Config, sold: nat, feeBp: u32, quantity: nat)
    requires Quote(c, sold, feeBp, quantity).Ok?
    ensures var q := Quote(c, sold, feeBp, quantity).value;
            && q.netToPay == Cost(c, sold, quantity)
            && q.gross == UnitPrice(c.ticketPrice, c.bundles, quantity) * quantity && q.gross - q.discount == q.netToPay
            && RoundsDown(q.fee, q.netToPay, feeBp, BASIS_POINTS)
            && RoundsDown(q.effectivePrice, q.netToPay, 1, quantity)
  {
    FeeRoundsDown(Cost(c, sold, quantity), feeBp);
    QuotientRoundsDown(Cost(c, sold, quantity), quantity);
  }
}
