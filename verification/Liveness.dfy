/** Exactly when a raffle whose draw has started can still be drawn by some run of calls. */
module Liveness {
  import opened Common
  import opened Config
  import opened Escrow
  import opened Invariants
  import opened Outcomes
  import opened QuorumSeeds
  import opened Record
  import Claims
  import Draw
  import Solvency

  function OracleSet(oracles: seq<Address>): set<Address>
  {
    set a | a in oracles
  }

  /** The source can still answer: randomness was asked for, and either the delay before an
      oracle's answer fits the ledger counter, or the quorum lists enough different oracles. */
  predicate Answerable(c: Config, l: Life)
  {
    && l.request.Some?
    && match c.source
       case External => l.request.value.ledger + RANDOMNESS_MIN_DELAY_LEDGERS < U32_LIMIT
       case Quorum(k, oracles) => |OracleSet(oracles)| >= k
       case _ => false
  }

  predicate Drawable(c: Config, s: State)
  {
    Answerable(c, s.life) && |c.prizes| <= s.book.sold
  }

  // ---------------------------------------------------------------------------
  // Otherwise no run draws it

  predicate Undrawable(c: Config, s: State)
  {
    s.life.status == Cancelled || (s.life.status == Drawing && !Drawable(c, s))
  }

  lemma {:induction false} DistinctFits(s: seq<Address>, all: set<Address>)
    requires Draw.Distinct(s) && forall a :: a in s ==> a in all
    ensures |s| <= |all|
  {
    if s != [] {
      var n := |s| - 1;
      var last: Address := s[n];
      assert last in s;
      assert last in all;
      forall a | a in s[..n]
        ensures a in all - {s[n]}
      {
        assert a in s;
      }
      DistinctFits(s[..n], all - {s[n]});
    }
  }

  /** A finished quorum consists of k different registered oracles. */
  lemma FullPanelIsAnswerable(c: Config, status: Status, l: Life, p: Panel, oracle: Address, seed: u64)
    requires c.source.Quorum? && QuorumPhase(c, status, p) && oracle !in p.seeds && oracle in c.source.oracles
    requires |p.submitted| + 1 >= c.source.k && l.request.Some?
    ensures Answerable(c, l)
  {
    PanelGrows(c, status, p, oracle, seed);
    DistinctFits(p.submitted + [oracle], OracleSet(c.source.oracles));
  }

  lemma SettlingNeedsTickets(c: Config, e: Env, s: State, seed: u64, contributions: Option<seq<Delivery>>)
    requires |c.prizes| > s.book.sold
    ensures FinalizeWithSeed(c, e, s, seed, contributions).Reject?
  {
  }

  lemma UndrawableOracle(c: Config, e: Env, s: State, seed: u64, proofSeed: u64, ok: bool, id: u64)
    requires Valid(c) && !Drawable(c, s)
    ensures OracleDelivery(c, e, s, seed, proofSeed, ok, id).Reject?
  {
    if |c.prizes| > s.book.sold {
      SettlingNeedsTickets(c, e, s, seed, None);
    }
  }

  lemma UndrawableQuorum(d: Digests, c: Config, e: Env, s: State, oracle: Address, seed: u64, id: u64)
    requires QuorumPhase(c, s.life.status, s.panel) && !Drawable(c, s)
    ensures var o := QuorumDelivery(d, c, e, s, oracle, seed, id);
            o.Accept? ==> o.post == s.(panel := o.post.panel)
  {
    var o := QuorumDelivery(d, c, e, s, oracle, seed, id);
    if o.Accept? && |s.panel.submitted| + 1 >= c.source.k {
      var u := s.(panel := Panel(s.panel.submitted + [oracle], s.panel.seeds[oracle := seed]));
      var ds := Deliveries(u.panel.submitted, u.panel.seeds);
      if |c.prizes| > s.book.sold {
        SettlingNeedsTickets(c, e, u, Aggregate(d.seeds, ds), Some(ds));
      } else {
        FullPanelIsAnswerable(c, s.life.status, s.life, s.panel, oracle, seed);
      }
    }
  }

  lemma UndrawableDelivery(d: Digests, c: Config, e: Env, s: State, call: Call, t: State, v: int)
    requires Delivers(call) && Valid(c) && QuorumPhase(c, s.life.status, s.panel) && !Drawable(c, s)
    requires DeliveryStep(d, c, e, s, call) == Accept(t, v)
    ensures t == s.(panel := t.panel)
  {
    match call
    case ProvideRandomness(seed, proofSeed, ok, id) => UndrawableOracle(c, e, s, seed, proofSeed, ok, id);
    case ProvideQuorumRandomness(oracle, seed, id) => UndrawableQuorum(d, c, e, s, oracle, seed, id);
  }

  lemma DrawingRejectsDraws(d: Digests, c: Config, e: Env, s: State, call: Call)
    requires Inv(d, c, s) && s.life.status == Drawing && Draws(call)
    ensures DrawStep(d, c, e, s, call).Reject?
  {
  }

  lemma DrawingStops(c: Config, e: Env, s: State, call: Call, t: State, v: int)
    requires s.life.status == Drawing && Stops(call) && StopStep(c, e, s, call) == Accept(t, v)
    ensures t.life.status == Cancelled || (t.life == s.life && t.book == s.book)
  {
  }

  lemma UndrawableStep(d: Digests, c: Config, e: Env, s: State, call: Call)
    requires Valid(c) && Inv(d, c, s) && Undrawable(c, s)
    ensures Undrawable(c, After(d, c, e, s, call))
  {
    hide SaleStep, DrawStep, DeliveryStep, PayoutStep, RefundStep, StopStep, TransferStep;
    var o := Step(d, c, e, s, call);
    if o.Accept? && s.life.status == Cancelled {
      StepIsKept(d, c, e, s, call);
    } else if o.Accept? {
      if Sale(call) {
        StuckSale(c, e, s, call);
      } else if Draws(call) {
        DrawingRejectsDraws(d, c, e, s, call);
      } else if Delivers(call) {
        UndrawableDelivery(d, c, e, s, call, o.post, o.value);
      } else if Payout(call) || Refunds(call) {
        StuckPayout(c, e, s, call);
      } else if Stops(call) {
        DrawingStops(c, e, s, call, o.post, o.value);
      } else if Transfer(call) {
        TransferIsNeutral(c, s, call, o.post, o.value);
      }
    }
  }

  lemma {:induction false} UndrawableStays(d: Digests, c: Config, s: State, run: Run)
    requires Valid(c) && Inv(d, c, s) && Undrawable(c, s)
    ensures Undrawable(c, Execute(d, c, s, run))
    decreases |run|
  {
    hide After, Inv, Valid;
    ValidShape(c);
    if run != [] {
      var n := |run| - 1;
      UndrawableStays(d, c, s, run[..n]);
      RecordIsFrozen(d, c, s, run[..n]);
      UndrawableStep(d, c, run[n].0, Execute(d, c, s, run[..n]), run[n].1);
    }
  }

  // ---------------------------------------------------------------------------
  // If it can be answered, some run draws it

  lemma OneCall(d: Digests, c: Config, s: State, e: Env, call: Call)
    ensures Execute(d, c, s, [(e, call)]) == After(d, c, e, s, call)
  {
    assert [(e, call)][..0] == [];
  }

  lemma CallThenRun(d: Digests, c: Config, s: State, e: Env, call: Call, rest: Run)
    ensures Execute(d, c, s, [(e, call)] + rest) == Execute(d, c, After(d, c, e, s, call), rest)
  {
    OneCall(d, c, s, e, call);
    Claims.RunsConcatenate(d, c, s, [(e, call)], rest);
  }

  lemma OracleIsStep(d: Digests, c: Config, e: Env, s: State, seed: u64, id: u64)
    ensures Step(d, c, e, s, ProvideRandomness(seed, seed, true, id)) == OracleDelivery(c, e, s, seed, seed, true, id)
  {
  }

  lemma ReadyForTickets(d: Digests, c: Config, s: State)
    requires Valid(c) && Inv(d, c, s) && s.life.status == Drawing && s.life.request.Some?
    ensures s.life.lock && AllTicketsPresent(s.book.tickets, s.book.sold) && 0 < s.book.sold < U32_LIMIT
  {
    assert Intact(s.book.tickets, s.book.sold);
    forall id: int | 1 <= id <= s.book.sold
      ensures id in s.book.tickets
    {
      assert id in Ids(s.book.sold);
    }
  }

  lemma OracleCanDraw(d: Digests, c: Config, s: State) returns (run: Run)
    requires Valid(c) && Inv(d, c, s) && s.life.status == Drawing && c.source.External? && Drawable(c, s)
    ensures Execute(d, c, s, run).life.status == Finalized
  {
    ReadyForTickets(d, c, s);
    var q := s.life.request.value;
    var e := Env(0, q.ledger + RANDOMNESS_MIN_DELAY_LEDGERS, false, 0, 0, 0);
    OracleIsStep(d, c, e, s, 0, q.id);
    assert OracleDelivery(c, e, s, 0, 0, true, q.id).Accept?;
    OneCall(d, c, s, e, ProvideRandomness(0, 0, true, q.id));
    run := [(e, ProvideRandomness(0, 0, true, q.id))];
  }

  /** A registered oracle that has not delivered yet. */
  lemma FreshOracle(c: Config, p: Panel) returns (a: Address)
    requires c.source.Quorum? && |OracleSet(c.source.oracles)| >= c.source.k > |p.submitted|
    requires forall a :: a in p.seeds ==> a in p.submitted
    ensures a in c.source.oracles && a !in p.seeds
  {
    var all := OracleSet(c.source.oracles);
    if forall a :: a in all ==> a in p.submitted {
      SetFits(all, p.submitted);
      assert false;
    }
    a :| a in all && a !in p.submitted;
  }

  lemma {:induction false} SetFits(all: set<Address>, s: seq<Address>)
    requires forall a :: a in all ==> a in s
    ensures |all| <= |s|
  {
    if s == [] {
      assert forall a: Address :: a in all ==> a in s;
      assert all == {};
    } else {
      var n := |s| - 1;
      forall a | a in all - {s[n]}
        ensures a in s[..n]
      {
        assert a in s;
      }
      SetFits(all - {s[n]}, s[..n]);
      assert |all| <= |all - {s[n]}| + 1;
    }
  }

  /** One more oracle either settles the draw or leaves it waiting for fewer. */
  lemma OneMoreDelivery(d: Digests, c: Config, s: State, a: Address) returns (t: State)
    requires Valid(c) && Inv(d, c, s) && s.life.status == Drawing && c.source.Quorum? && Drawable(c, s)
    requires a in c.source.oracles && a !in s.panel.seeds
    ensures Gives(QuorumDelivery(d, c, Solvency.Plain(0), s, a, 0, s.life.request.value.id), t)
    ensures if |s.panel.submitted| + 1 < c.source.k then t.life == s.life && t.book == s.book && |t.panel.submitted| == |s.panel.submitted| + 1
            else t.life.status == Finalized
  {
    ReadyForTickets(d, c, s);
    t := DeliveryAnswers(d, c, s, a, s.life.request.value.id);
  }

  lemma DeliveryAnswers(d: Digests, c: Config, s: State, a: Address, id: u64) returns (t: State)
    requires c.source.Quorum? && a in c.source.oracles && a !in s.panel.seeds
    requires s.life.status == Drawing && s.life.lock && s.life.request.Some? && s.life.request.value.id == id
    requires AllTicketsPresent(s.book.tickets, s.book.sold) && 0 < s.book.sold < U32_LIMIT && |c.prizes| <= s.book.sold
    ensures Gives(QuorumDelivery(d, c, Solvency.Plain(0), s, a, 0, id), t)
    ensures if |s.panel.submitted| + 1 < c.source.k then t.life == s.life && t.book == s.book && |t.panel.submitted| == |s.panel.submitted| + 1
            else t.life.status == Finalized
  {
    hide AllTicketsPresent, Deliveries, Aggregate, Owners, ClearQuorum;
    t := QuorumDelivery(d, c, Solvency.Plain(0), s, a, 0, id).post;
  }

  lemma {:induction false} QuorumCanDraw(d: Digests, c: Config, s: State) returns (run: Run)
    requires Valid(c) && Inv(d, c, s) && s.life.status == Drawing && c.source.Quorum? && Drawable(c, s)
    ensures Execute(d, c, s, run).life.status == Finalized
    decreases c.source.k - |s.panel.submitted|
  {
    var a := FreshOracle(c, s.panel);
    var t := OneMoreDelivery(d, c, s, a);
    var e, call := Solvency.Plain(0), ProvideQuorumRandomness(a, 0, s.life.request.value.id);
    DeliveryIsStep(d, c, e, s, a, 0, s.life.request.value.id);
    if t.life.status == Finalized {
      OneCall(d, c, s, e, call);
      run := [(e, call)];
    } else {
      StepKeeps(d, c, e, s, call);
      var rest := QuorumCanDraw(d, c, t);
      CallThenRun(d, c, s, e, call, rest);
      run := [(e, call)] + rest;
    }
  }

  /** While a draw is pending an oracle's answer is accepted exactly when the source is external, it
      answers the request ten ledgers after it or later, proof and signature match, and there is a
      ticket for every tier. */
  lemma OracleAnswerIff(d: Digests, c: Config, e: Env, s: State, seed: u64, proofSeed: u64, ok: bool, id: u64)
    requires Valid(c) && Inv(d, c, s) && s.life.status == Drawing && s.life.request.Some?
    ensures OracleDelivery(c, e, s, seed, proofSeed, ok, id).Accept? <==>
              && c.source.External? && id == s.life.request.value.id
              && s.life.request.value.ledger + 10 <= e.ledger && proofSeed == seed && ok && |c.prizes| <= s.book.sold
  {
    ReadyForTickets(d, c, s);
  }

  /** A quorum delivery is accepted exactly when it answers the request and comes from a registered
      oracle that has not delivered yet, and the one that completes the quorum only with a ticket
      for every tier. */
  lemma QuorumAnswerIff(d: Digests, c: Config, e: Env, s: State, oracle: Address, seed: u64, id: u64)
    requires Valid(c) && Inv(d, c, s) && s.life.status == Drawing && s.life.request.Some?
    ensures QuorumDelivery(d, c, e, s, oracle, seed, id).Accept? <==>
              && c.source.Quorum? && id == s.life.request.value.id
              && oracle in c.source.oracles && oracle !in s.panel.submitted
              && (|s.panel.submitted| + 1 < c.source.k || |c.prizes| <= s.book.sold)
  {
    hide Deliveries, Aggregate, Owners;
    ReadyForTickets(d, c, s);
  }

  /** A raffle whose draw has started can still be drawn by some run exactly when its source can
      still answer and there is a ticket for every tier. */
  lemma DrawableIff(d: Digests, c: Config, s: State)
    requires Valid(c) && Inv(d, c, s) && s.life.status == Drawing
    ensures Drawable(c, s) <==> exists run: Run :: Drawn(Execute(d, c, s, run).life.status)
  {
    if Drawable(c, s) {
      var run;
      if c.source.External? {
        run := OracleCanDraw(d, c, s);
      } else {
        run := QuorumCanDraw(d, c, s);
      }
      assert Drawn(Execute(d, c, s, run).life.status);
    } else {
      forall run: Run
        ensures !Drawn(Execute(d, c, s, run).life.status)
      {
        UndrawableStays(d, c, s, run);
      }
    }
  }
}
