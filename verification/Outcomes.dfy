/** What decides a draw: the attestation a third party replays, the quorum of oracle seeds,
    and the sold-out raffles whose draw can never happen. */
module Outcomes {
  import opened Common
  import opened Config
  import opened Escrow
  import opened Invariants
  import opened QuorumSeeds
  import opened Record
  import Draw
  import Winners

  // ---------------------------------------------------------------------------
  // Attestation

  datatype Attestation = Attestation(
    seed: u64,
    ticketIds: seq<int>,
    indices: seq<nat>,
    timestamp: u64,
    sequence: u32,
    unique: bool,
    source: RandomnessSource,
    winners: seq<Address>,
    winningTickets: seq<int>,
    sold: nat,
    prizes: seq<u32>,
    prizeAmount: int,
    ticketPrice: int,
    metadataHash: nat,
    configHash: int)

  function TicketIds(n: nat): seq<int>
  {
    seq(n, i => i + 1)
  }

  function OneBased(indices: seq<nat>): seq<int>
  {
    seq(|indices|, i requires 0 <= i < |indices| => indices[i] + 1)
  }

  function Addresses(winners: seq<Winner>): seq<Address>
  {
    seq(|winners|, i requires 0 <= i < |winners| => winners[i].address)
  }

  function ConfigHash(d: Digests, c: Config): int
  {
    d.configs(DrawConfig(c.maxTickets, c.ticketPrice, c.prizeAmount, c.prizes, c.source, c.creator))
  }

  function Attest(d: Digests, c: Config, s: State): Result<Attestation>
  {
    if !Drawn(s.life.status) then Err(InvalidStatus)
    else if s.podium.fairness.None? then Err(InvalidStatus)
    else
      var f := s.podium.fairness.value;
      Ok(Attestation(f.seed, TicketIds(s.book.sold), f.indices, f.timestamp, f.sequence, c.uniqueWinners, c.source,
                     Addresses(s.podium.winners), OneBased(f.indices), s.book.sold, c.prizes, c.prizeAmount,
                     c.ticketPrice, c.metadataHash, ConfigHash(d, c)))
  }

  /** What a verifier who knows the ticket owners checks: replaying the selection from the seed
      gives the attested indices, and tier `i` belongs to the owner of ticket `indices[i] + 1`.
      The hash of the configuration is checked by hashing the published one. */
  ghost predicate Verifies(a: Attestation, owners: seq<Address>)
  {
    && |a.prizes| <= |owners| == |a.ticketIds| < U32_LIMIT
    && a.indices == Winners.DrawOutcome(a.seed, owners, |a.prizes|, a.unique)
    && |a.winners| == |a.winningTickets| == |a.prizes|
    && forall i :: 0 <= i < |a.prizes| ==>
         && a.winningTickets[i] == a.indices[i] + 1
         && a.winners[i] == owners[a.indices[i]]
  }

  /** In every drawn state before a wipe the attestation is available and verifies. */
  lemma AttestationVerifies(d: Digests, c: Config, run: Run)
    requires Shape(c)
    ensures var s := Reached(d, c, run);
            && (Attest(d, c, s).Ok? <==> Drawn(s.life.status))
            && (Drawn(s.life.status) && Intact(s.book.tickets, s.book.sold) ==>
                  Verifies(Attest(d, c, s).value, Owners(s.book.tickets, s.book.sold)))
  {
    hide After;
    ReachedInv(d, c, run);
    var s := Reached(d, c, run);
    if Drawn(s.life.status) && Intact(s.book.tickets, s.book.sold) {
      RecordVerifies(d, c, s);
    }
  }

  /** What it tells beside the draw is the configuration, the tickets sold, and the hashes of the
      metadata and of the configuration. */
  lemma AttestationStates(d: Digests, c: Config, s: State)
    requires Attest(d, c, s).Ok?
    ensures var a := Attest(d, c, s).value;
            && a.prizes == c.prizes && a.prizeAmount == c.prizeAmount && a.ticketPrice == c.ticketPrice
            && a.unique == c.uniqueWinners && a.source == c.source && a.metadataHash == c.metadataHash
            && a.configHash == d.configs(DrawConfig(c.maxTickets, c.ticketPrice, c.prizeAmount, c.prizes, c.source, c.creator))
            && a.sold == s.book.sold == |a.ticketIds| && forall i :: 0 <= i < a.sold ==> a.ticketIds[i] == i + 1
    ensures s.podium.fairness.Some? && s.podium.fairness.value.seed == Attest(d, c, s).value.seed
    ensures s.podium.fairness.value.timestamp == Attest(d, c, s).value.timestamp
    ensures s.podium.fairness.value.sequence == Attest(d, c, s).value.sequence
  {
  }

  lemma RecordVerifies(d: Digests, c: Config, s: State)
    requires Drawn(s.life.status) && s.podium.fairness.Some?
    requires Replays(c, s.podium.fairness.value, s.podium.winners, s.book.tickets, s.book.sold)
    ensures Verifies(Attest(d, c, s).value, Owners(s.book.tickets, s.book.sold))
  {
  }

  /** Once available the attestation never changes, whatever is called afterwards. */
  lemma AttestationIsFinal(d: Digests, c: Config, s: State, run: Run)
    requires Shape(c) && Inv(d, c, s) && Attest(d, c, s).Ok?
    ensures Attest(d, c, Execute(d, c, s, run)) == Attest(d, c, s)
  {
    RecordIsFrozen(d, c, s, run);
    AttestationDependsOnRecord(d, c, s, Execute(d, c, s, run));
  }

  lemma AttestationDependsOnRecord(d: Digests, c: Config, s: State, t: State)
    requires Attest(d, c, s).Ok? && Frozen(s, t)
    ensures Attest(d, c, t) == Attest(d, c, s)
  {
    assert Addresses(s.podium.winners) == Addresses(t.podium.winners);
  }

  // ---------------------------------------------------------------------------
  // The quorum

  /** In every reachable state the deliveries on record come from distinct registered oracles,
      one seed each, and fewer than k of them. */
  lemma QuorumPending(d: Digests, c: Config, run: Run)
    requires Valid(c) && c.source.Quorum?
    ensures var p := Reached(d, c, run).panel;
            && Draw.Distinct(p.submitted) && |p.submitted| < c.source.k
            && forall a: Address :: (a in p.submitted <==> a in p.seeds) && (a in p.seeds ==> a in c.source.oracles)
  {
    hide After;
    ReachedInv(d, c, run);
  }

  /** Two draw records over the same tickets. */
  lemma RecordsAgree(d: Digests, c: Config, p: Podium, q: Podium, tickets: map<int, Ticket>, sold: nat)
    requires DrawRecord(d, c, p, tickets, sold) && DrawRecord(d, c, q, tickets, sold) && Intact(tickets, sold)
    requires p.fairness.Some? && q.fairness.Some?
    requires p.fairness.value.contributions.Some? && q.fairness.value.contributions.Some?
    requires multiset(p.fairness.value.contributions.value) == multiset(q.fairness.value.contributions.value)
    ensures p.fairness.value.seed == q.fairness.value.seed && p.fairness.value.indices == q.fairness.value.indices
    ensures |p.winners| == |q.winners| && forall i :: 0 <= i < |p.winners| ==> p.winners[i].address == q.winners[i].address
  {
    AggregateIsOrderIndependent(d.seeds, p.fairness.value.contributions.value, q.fairness.value.contributions.value);
  }

  ghost predicate QuorumDrawn(s: State)
  {
    s.podium.fairness.Some? && s.podium.fairness.value.contributions.Some? && Intact(s.book.tickets, s.book.sold)
  }

  /** Any two runs that end up over the same tickets, settled by the same k deliveries in
      whatever order they arrived, have the same seed, the same indices and the same winners. */
  lemma ArrivalOrderIsIrrelevant(d: Digests, c: Config, run1: Run, run2: Run)
    requires Shape(c)
    requires var s, t := Reached(d, c, run1), Reached(d, c, run2);
             && QuorumDrawn(s) && QuorumDrawn(t)
             && s.book.tickets == t.book.tickets && s.book.sold == t.book.sold
             && multiset(s.podium.fairness.value.contributions.value) == multiset(t.podium.fairness.value.contributions.value)
    ensures var s, t := Reached(d, c, run1), Reached(d, c, run2);
            && s.podium.fairness.value.seed == t.podium.fairness.value.seed
            && s.podium.fairness.value.indices == t.podium.fairness.value.indices
            && |s.podium.winners| == |t.podium.winners|
            && forall i :: 0 <= i < |s.podium.winners| ==> s.podium.winners[i].address == t.podium.winners[i].address
  {
    hide After;
    var s, t := Reached(d, c, run1), Reached(d, c, run2);
    assert DrawRecord(d, c, s.podium, s.book.tickets, s.book.sold) by {
      ReachedInv(d, c, run1);
    }
    assert DrawRecord(d, c, t.podium, t.book.tickets, t.book.sold) by {
      ReachedInv(d, c, run2);
    }
    RecordsAgree(d, c, s.podium, t.podium, s.book.tickets, s.book.sold);
  }

  /** A raffle waiting for its quorum, with nothing delivered yet. */
  ghost predicate AwaitsQuorum(d: Digests, c: Config, s: State)
  {
    && Inv(d, c, s) && Valid(c) && c.source.Quorum?
    && s.life.status == Drawing && s.life.request.Some? && s.panel.submitted == []
  }

  /** Deliveries `ds` in order, whatever the surroundings. */
  ghost predicate DeliveryRun(run: Run, ds: seq<Delivery>, id: u64)
  {
    |run| == |ds| && forall i :: 0 <= i < |run| ==> run[i].1 == ProvideQuorumRandomness(ds[i].0, ds[i].1, id)
  }

  /** The panel holds exactly the deliveries `ds`, in order. */
  ghost predicate Holds(p: Panel, ds: seq<Delivery>)
  {
    && |p.submitted| == |ds|
    && (forall i :: 0 <= i < |ds| ==>
          p.submitted[i] == ds[i].0 && ds[i].0 in p.seeds && p.seeds[ds[i].0] == ds[i].1)
    && forall a :: a in p.seeds ==> a in p.submitted
  }

  lemma HeldIsDelivered(p: Panel, ds: seq<Delivery>)
    requires Holds(p, ds)
    ensures Deliveries(p.submitted, p.seeds) == ds
  {
    DeliveriesOnRecord(p.submitted, p.seeds);
  }

  lemma OneMoreHeld(p: Panel, ds: seq<Delivery>, more: Delivery)
    requires Holds(p, ds) && DistinctOracles(ds + [more])
    ensures more.0 !in p.seeds
    ensures Holds(Panel(p.submitted + [more.0], p.seeds[more.0 := more.1]), ds + [more])
  {
    var all := ds + [more];
    if more.0 in p.seeds {
      var i :| 0 <= i < |p.submitted| && p.submitted[i] == more.0;
      assert all[i].0 != all[|ds|].0;
    }
    forall i | 0 <= i < |ds|
      ensures p.submitted[i] != more.0
    {
      assert all[i].0 != all[|ds|].0;
    }
  }

  /** What `s` has become after the deliveries `ds`. */
  ghost predicate DeliveredTo(d: Digests, c: Config, s: State, t: State, ds: seq<Delivery>)
    requires c.source.Quorum? && c.source.k >= 1
  {
    if |ds| < c.source.k || |c.prizes| > s.book.sold then
      && t == s.(panel := t.panel)
      && Holds(t.panel, if |ds| < c.source.k then ds else ds[..c.source.k - 1])
    else
      && t.life.status == Finalized && t.book == s.book && t.podium.fairness.Some?
      && t.podium.fairness.value.contributions == Some(ds)
      && forall i :: 0 <= i < |t.podium.winners| ==> !t.podium.winners[i].claimed
  }

  lemma DeliveryIsStep(d: Digests, c: Config, e: Env, s: State, oracle: Address, seed: u64, id: u64)
    ensures Step(d, c, e, s, ProvideQuorumRandomness(oracle, seed, id)) == QuorumDelivery(d, c, e, s, oracle, seed, id)
  {
  }

  /** What a delivery needs of the state besides the panel. */
  ghost predicate Waiting(c: Config, s: State)
  {
    && c.source.Quorum? && c.source.k >= 1
    && s.life.status == Drawing && s.life.lock && s.life.request.Some?
    && AllTicketsPresent(s.book.tickets, s.book.sold) && 0 < s.book.sold < U32_LIMIT
  }

  lemma AwaitingIsWaiting(d: Digests, c: Config, s: State)
    requires AwaitsQuorum(d, c, s)
    ensures Waiting(c, s) && Holds(s.panel, [])
  {
    assert Intact(s.book.tickets, s.book.sold);
    forall id: int | 1 <= id <= s.book.sold
      ensures id in s.book.tickets
    {
      assert id in Ids(s.book.sold);
    }
  }

  lemma OneDelivery(d: Digests, c: Config, e: Env, s: State, t: State, ds: seq<Delivery>, more: Delivery)
    requires Waiting(c, s) && |ds| < c.source.k && DeliveredTo(d, c, s, t, ds)
    requires DistinctOracles(ds + [more]) && more.0 in c.source.oracles
    ensures var o := QuorumDelivery(d, c, e, t, more.0, more.1, s.life.request.value.id);
            DeliveredTo(d, c, s, if o.Accept? then o.post else t, ds + [more])
  {
    hide AllTicketsPresent, Owners, ClearQuorum, Aggregate, Deliveries;
    OneMoreHeld(t.panel, ds, more);
    var p := Panel(t.panel.submitted + [more.0], t.panel.seeds[more.0 := more.1]);
    HeldIsDelivered(p, ds + [more]);
    assert (ds + [more])[..|ds|] == ds;
  }

  lemma NothingDelivered(d: Digests, c: Config, s: State)
    requires Waiting(c, s) && Holds(s.panel, [])
    ensures DeliveredTo(d, c, s, s, [])
  {
  }

  lemma {:induction false} DeliveriesCollect(d: Digests, c: Config, s: State, run: Run, ds: seq<Delivery>)
    requires Waiting(c, s) && Holds(s.panel, []) && DeliveryRun(run, ds, s.life.request.value.id)
    requires |ds| <= c.source.k && DistinctOracles(ds)
    requires forall i :: 0 <= i < |ds| ==> ds[i].0 in c.source.oracles
    ensures DeliveredTo(d, c, s, Execute(d, c, s, run), ds)
    decreases |run|
  {
    hide DeliveredTo, QuorumDelivery, Step;
    if run == [] {
      NothingDelivered(d, c, s);
    } else {
      var n := |run| - 1;
      var t := Execute(d, c, s, run[..n]);
      DeliveriesCollect(d, c, s, run[..n], ds[..n]);
      assert ds[..n] + [ds[n]] == ds;
      OneDelivery(d, c, run[n].0, s, t, ds[..n], ds[n]);
      DeliveryIsStep(d, c, run[n].0, t, ds[n].0, ds[n].1, s.life.request.value.id);
    }
  }

  /** k deliveries of distinct registered oracles settle the draw, and record exactly those
      deliveries, if and only if there are tickets for every tier. */
  lemma QuorumSettlesIff(d: Digests, c: Config, s: State, run: Run, ds: seq<Delivery>)
    requires AwaitsQuorum(d, c, s) && DeliveryRun(run, ds, s.life.request.value.id)
    requires |ds| == c.source.k && DistinctOracles(ds)
    requires forall i :: 0 <= i < |ds| ==> ds[i].0 in c.source.oracles
    ensures Execute(d, c, s, run).life.status == Finalized <==> |c.prizes| <= s.book.sold
    ensures |c.prizes| <= s.book.sold ==>
              DeliveredTo(d, c, s, Execute(d, c, s, run), ds) && Inv(d, c, Execute(d, c, s, run))
  {
    AwaitingIsWaiting(d, c, s);
    DeliveriesCollect(d, c, s, run, ds);
    RecordIsFrozen(d, c, s, run);
  }

  /** Two runs that deliver the same seeds in different orders draw the same winners. */
  lemma QuorumRunsAgree(d: Digests, c: Config, s: State, run1: Run, run2: Run, ds1: seq<Delivery>, ds2: seq<Delivery>)
    requires AwaitsQuorum(d, c, s) && |c.prizes| <= s.book.sold
    requires DeliveryRun(run1, ds1, s.life.request.value.id) && DeliveryRun(run2, ds2, s.life.request.value.id)
    requires |ds1| == c.source.k && DistinctOracles(ds1) && multiset(ds1) == multiset(ds2)
    requires forall i :: 0 <= i < |ds1| ==> ds1[i].0 in c.source.oracles
    ensures var t1, t2 := Execute(d, c, s, run1), Execute(d, c, s, run2);
            && t1.life.status == Finalized && t2.life.status == Finalized
            && t1.podium.fairness.Some? && t2.podium.fairness.Some?
            && t1.podium.fairness.value.seed == t2.podium.fairness.value.seed
            && t1.podium.winners == t2.podium.winners
  {
    hide After, Deliveries;
    SameLength(ds1, ds2);
    DistinctUnderPermutation(ds1, ds2);
    forall i | 0 <= i < |ds2|
      ensures ds2[i].0 in c.source.oracles
    {
      assert ds2[i] in multiset(ds1);
    }
    var t1, t2 := Execute(d, c, s, run1), Execute(d, c, s, run2);
    AwaitingIsWaiting(d, c, s);
    assert DeliveredTo(d, c, s, t1, ds1) by {
      DeliveriesCollect(d, c, s, run1, ds1);
    }
    assert DeliveredTo(d, c, s, t2, ds2) by {
      DeliveriesCollect(d, c, s, run2, ds2);
    }
    assert Intact(s.book.tickets, s.book.sold);
    assert DrawRecord(d, c, t1.podium, s.book.tickets, s.book.sold) by {
      RecordIsFrozen(d, c, s, run1);
    }
    assert DrawRecord(d, c, t2.podium, s.book.tickets, s.book.sold) by {
      RecordIsFrozen(d, c, s, run2);
    }
    RecordsAgree(d, c, t1.podium, t2.podium, s.book.tickets, s.book.sold);
    SameWinners(t1.podium.winners, t2.podium.winners);
  }

  lemma SameWinners(ws: seq<Winner>, vs: seq<Winner>)
    requires |ws| == |vs|
    requires forall i :: 0 <= i < |ws| ==> ws[i].address == vs[i].address && !ws[i].claimed && !vs[i].claimed
    ensures ws == vs
  {
  }

  // ---------------------------------------------------------------------------
  // Draws that cannot happen

  /** A raffle that sold out its last ticket without asking for randomness. */
  predicate Stuck(l: Life)
  {
    (l.status == Drawing && l.request.None?) || l.status == Cancelled
  }

  lemma StuckStep(d: Digests, c: Config, e: Env, s: State, call: Call)
    requires Shape(c) && Inv(d, c, s) && Stuck(s.life)
    ensures Stuck(After(d, c, e, s, call).life)
  {
    hide SaleStep, DrawStep, DeliveryStep, PayoutStep, RefundStep, StopStep, TransferStep;
    var o := Step(d, c, e, s, call);
    if o.Accept? && s.life.status == Cancelled {
      StepIsKept(d, c, e, s, call);
    } else if o.Accept? {
      if Sale(call) {
        StuckSale(c, e, s, call);
      } else if Draws(call) || Delivers(call) {
        StuckDraw(d, c, e, s, call);
      } else if Payout(call) || Refunds(call) {
        StuckPayout(c, e, s, call);
      } else if Stops(call) {
        StuckStop(c, e, s, call, o.post, o.value);
      } else if Transfer(call) {
        TransferIsNeutral(c, s, call, o.post, o.value);
      }
    }
  }

  lemma StuckSale(c: Config, e: Env, s: State, call: Call)
    requires s.life.status == Drawing && Sale(call)
    ensures SaleStep(c, e, s, call).Reject?
  {
  }

  lemma StuckDraw(d: Digests, c: Config, e: Env, s: State, call: Call)
    requires Inv(d, c, s) && s.life.status == Drawing && s.life.request.None? && (Draws(call) || Delivers(call))
    ensures Draws(call) ==> DrawStep(d, c, e, s, call).Reject?
    ensures Delivers(call) ==> DeliveryStep(d, c, e, s, call).Reject?
  {
  }

  lemma StuckPayout(c: Config, e: Env, s: State, call: Call)
    requires s.life.status == Drawing && (Payout(call) || Refunds(call))
    ensures Payout(call) ==> PayoutStep(c, e, s, call).Reject?
    ensures Refunds(call) ==> RefundStep(c, s, call).Reject?
  {
  }

  lemma StuckStop(c: Config, e: Env, s: State, call: Call, t: State, v: int)
    requires s.life.status == Drawing && s.life.request.None? && Stops(call) && StopStep(c, e, s, call) == Accept(t, v)
    ensures Stuck(t.life)
  {
  }

  /** Selling out draws a lock that only an oracle answer releases, and only the external source
      is asked for one: a sold-out raffle of any other source is never drawn, by any run. */
  lemma {:induction false} SoldOutDrawIsStuck(d: Digests, c: Config, s: State, run: Run)
    requires Shape(c) && Inv(d, c, s) && s.life.status == Drawing && s.life.request.None?
    ensures s.book.sold == c.maxTickets && !c.source.External?
    ensures !Drawn(Execute(d, c, s, run).life.status)
    ensures Inv(d, c, Execute(d, c, s, run)) && Stuck(Execute(d, c, s, run).life)
    decreases |run|
  {
    hide After;
    if run != [] {
      var n := |run| - 1;
      var t := Execute(d, c, s, run[..n]);
      SoldOutDrawIsStuck(d, c, s, run[..n]);
      StuckStep(d, c, run[n].0, t, run[n].1);
      StepKeeps(d, c, run[n].0, t, run[n].1);
    }
  }

  predicate AsksOracles(source: RandomnessSource)
  {
    source.External? || source.Quorum?
  }

  /** Finalizing an expired raffle succeeds exactly when it failed its minimum, asks oracles, or
      sold a ticket for every tier; and it leads where the minimum and the source say. */
  lemma ExpiredFinalizesIff(d: Digests, c: Config, e: Env, s: State)
    requires Valid(c) && Inv(d, c, s) && s.life.status == Active && Expired(c, e)
    ensures var failed := s.book.sold == 0 || s.book.sold < c.minTickets;
            var o := Finalize(d, c, e, s);
            && (o.Accept? <==> failed || AsksOracles(c.source) || |c.prizes| <= s.book.sold)
            && (o.Accept? ==>
                  o.post.life.status == (if failed then Failed else if AsksOracles(c.source) then Drawing else Finalized))
  {
    assert Intact(s.book.tickets, s.book.sold);
    forall id: int | 1 <= id <= s.book.sold
      ensures id in s.book.tickets
    {
      assert id in Ids(s.book.sold);
    }
  }

  // ---------------------------------------------------------------------------
  // Commitments, pauses and leftovers

  /** An accepted commitment stands: until a wipe no run changes it, and no run lets another one
      be made for the same ticket. */
  lemma CommitmentStands(d: Digests, c: Config, e: Env, s: State, ticket: int, hash: int, t: State, run: Run)
    requires Shape(c) && Inv(d, c, s) && Gives(Commit(c, e, s, ticket, hash), t)
    ensures var u := Execute(d, c, t, run);
            && (Erased(u.life.status, u.book) || (ticket in u.book.commits && u.book.commits[ticket] == hash))
            && forall later: Env, other: int :: Commit(c, later, u, ticket, other).Reject?
  {
    hide After, Inv;
    CommitKeeps(d, c, e, s, ticket, hash, t);
    RecordIsFrozen(d, c, t, run);
  }

  /** The global pause stops gifts as well as purchases. */
  lemma GlobalPauseStopsSales(c: Config, e: Env, s: State, buyer: Address, recipient: Address, quantity: u32)
    requires e.globalPaused
    ensures Buy(c, e, s, buyer, quantity).Reject? && BuyFor(c, e, s, buyer, recipient, quantity).Reject?
  {
  }

  // ---------------------------------------------------------------------------
  // Deliveries left behind

  /** The delivery that the call makes, if it is accepted. */
  function AcceptedDelivery(d: Digests, c: Config, e: Env, s: State, call: Call): seq<Delivery>
  {
    if call.ProvideQuorumRandomness? && QuorumDelivery(d, c, e, s, call.oracle, call.seed, call.requestId).Accept?
    then [(call.oracle, call.seed)]
    else []
  }

  /** The deliveries a run accepted, in order. */
  function DeliveredIn(d: Digests, c: Config, run: Run): seq<Delivery>
    decreases |run|
  {
    if run == [] then []
    else
      var n := |run| - 1;
      DeliveredIn(d, c, run[..n]) + AcceptedDelivery(d, c, run[n].0, Reached(d, c, run[..n]), run[n].1)
  }

  /** What is on record after a step: one delivery more at most, or none once drawn. */
  ghost predicate Collects(s: State, t: State, more: seq<Delivery>)
  {
    if Drawn(t.life.status) then t.panel.submitted == []
    else if more == [] then t.panel == s.panel
    else
      && more[0].0 !in s.panel.seeds
      && t.panel == Panel(s.panel.submitted + [more[0].0], s.panel.seeds[more[0].0 := more[0].1])
  }

  lemma OracleCollects(c: Config, e: Env, s: State, seed: u64, proofSeed: u64, ok: bool, id: u64, t: State)
    requires Gives(OracleDelivery(c, e, s, seed, proofSeed, ok, id), t)
    ensures Collects(s, t, [])
  {
  }

  lemma QuorumCollects(d: Digests, c: Config, e: Env, s: State, oracle: Address, seed: u64, id: u64, t: State)
    requires s.life.lock ==> !Drawn(s.life.status)
    requires Gives(QuorumDelivery(d, c, e, s, oracle, seed, id), t)
    ensures Collects(s, t, [(oracle, seed)])
  {
  }

  lemma DeliveryCollects(d: Digests, c: Config, e: Env, s: State, call: Call, t: State, v: int)
    requires Inv(d, c, s) && Delivers(call) && DeliveryStep(d, c, e, s, call) == Accept(t, v)
    ensures Collects(s, t, AcceptedDelivery(d, c, e, s, call))
  {
    hide FinalizeWithSeed, Collects, Deliveries, Aggregate;
    match call
    case ProvideRandomness(seed, proofSeed, ok, id) => OracleCollects(c, e, s, seed, proofSeed, ok, id, t);
    case ProvideQuorumRandomness(oracle, seed, id) => QuorumCollects(d, c, e, s, oracle, seed, id, t);
  }

  lemma DrawCollects(d: Digests, c: Config, e: Env, s: State, call: Call, t: State, v: int)
    requires Inv(d, c, s) && Draws(call) && DrawStep(d, c, e, s, call) == Accept(t, v)
    ensures Collects(s, t, [])
  {
    match call
    case FinalizeRaffle =>
    case TriggerFallback(caller, refund) => FallbackNeverApplies(d, c, e, s, caller, refund);
  }

  lemma PayoutLeavesPanel(c: Config, e: Env, s: State, call: Call, t: State, v: int)
    requires Payout(call) && PayoutStep(c, e, s, call) == Accept(t, v)
    ensures t.panel == s.panel && t.life.lock == s.life.lock
  {
    if call.SweepUnclaimed? && call.start < |s.podium.winners| {
      SweepFrame(c, s, c.treasury.value, call.start, SweepEnd(s, call.start, call.limit));
    }
  }

  lemma RefundLeavesPanel(c: Config, s: State, call: Call, t: State, v: int)
    requires Refunds(call) && RefundStep(c, s, call) == Accept(t, v)
    ensures t.panel == s.panel && t.life.lock == s.life.lock
  {
    if call.BatchRefund? {
      RefundFrame(c, s, call.caller, call.ids);
    }
  }

  lemma OtherLeavesPanel(c: Config, e: Env, s: State, call: Call, t: State, v: int)
    requires (Stops(call) && StopStep(c, e, s, call) == Accept(t, v)) || (Transfer(call) && TransferStep(c, s, call) == Accept(t, v))
          || (Settings(call) && SettingStep(c, s, call) == Accept(t, v))
    ensures t.panel == s.panel && (t.life.lock ==> s.life.lock)
  {
  }

  lemma SaleLeavesPanel(c: Config, e: Env, s: State, call: Call, t: State, v: int)
    requires Sale(call) && SaleStep(c, e, s, call) == Accept(t, v)
    ensures t.panel == s.panel && (t.life.lock ==> s.life.lock || s.life.status == Active)
  {
  }

  /** Only draws and deliveries touch the record, and only selling out locks. */
  lemma OthersLeavePanel(d: Digests, c: Config, e: Env, s: State, call: Call)
    requires !Draws(call) && !Delivers(call)
    ensures var t := After(d, c, e, s, call);
            t.panel == s.panel && (t.life.lock ==> s.life.lock || s.life.status == Active)
  {
    hide SaleStep, PayoutStep, RefundStep, StopStep, TransferStep, SettingStep;
    var o := Step(d, c, e, s, call);
    if o.Accept? {
      if Sale(call) {
        SaleLeavesPanel(c, e, s, call, o.post, o.value);
      } else if Payout(call) {
        PayoutLeavesPanel(c, e, s, call, o.post, o.value);
      } else if Refunds(call) {
        RefundLeavesPanel(c, s, call, o.post, o.value);
      } else {
        OtherLeavesPanel(c, e, s, call, o.post, o.value);
      }
    }
  }

  lemma StepCollects(d: Digests, c: Config, e: Env, s: State, call: Call)
    requires Shape(c) && Inv(d, c, s)
    ensures Collects(s, After(d, c, e, s, call), AcceptedDelivery(d, c, e, s, call))
  {
    hide Inv, SaleStep, DrawStep, PayoutStep, RefundStep, StopStep, TransferStep, SettingStep;
    var o := Step(d, c, e, s, call);
    if o.Accept? && Draws(call) {
      DrawCollects(d, c, e, s, call, o.post, o.value);
    } else if o.Accept? && Delivers(call) {
      DeliveryCollects(d, c, e, s, call, o.post, o.value);
    } else if o.Accept? {
      OthersLeavePanel(d, c, e, s, call);
      StepKeeps(d, c, e, s, call);
      if Drawn(o.post.life.status) {
        DrawnHasNoPanel(d, c, o.post);
      }
    } else if Drawn(s.life.status) {
      DrawnHasNoPanel(d, c, s);
    }
  }

  lemma DrawnHasNoPanel(d: Digests, c: Config, s: State)
    requires Inv(d, c, s) && Drawn(s.life.status)
    ensures s.panel.submitted == []
  {
  }

  lemma HeldGrows(p: Panel, ds: seq<Delivery>, more: Delivery)
    requires Holds(p, ds) && more.0 !in p.seeds
    ensures Holds(Panel(p.submitted + [more.0], p.seeds[more.0 := more.1]), ds + [more])
  {
  }

  lemma HeldCollects(s: State, t: State, ds: seq<Delivery>, more: seq<Delivery>)
    requires Holds(s.panel, ds) && Collects(s, t, more) && |more| <= 1 && !Drawn(t.life.status)
    ensures Holds(t.panel, ds + more)
  {
    if more == [] {
      assert ds + more == ds;
    } else {
      HeldGrows(s.panel, ds, more[0]);
      assert [more[0]] == more;
    }
  }

  lemma DrawnStays(d: Digests, c: Config, e: Env, s: State, call: Call)
    requires Shape(c) && Inv(d, c, s) && Drawn(s.life.status)
    ensures Drawn(After(d, c, e, s, call).life.status)
  {
    hide After, Inv;
    StepIsKept(d, c, e, s, call);
  }

  /** Until a draw uses them, the record holds exactly the deliveries that were accepted, each with
      its seed, whether the draw was still pending or already cancelled. */
  lemma {:induction false} PanelIsDelivered(d: Digests, c: Config, run: Run)
    requires Shape(c)
    ensures var s := Reached(d, c, run);
            if Drawn(s.life.status) then s.panel.submitted == [] else Holds(s.panel, DeliveredIn(d, c, run))
    decreases |run|
  {
    hide After, Collects, Holds, Inv, AcceptedDelivery;
    if run == [] {
      NothingHeldYet(d, c);
    } else {
      var n := |run| - 1;
      var s := Reached(d, c, run[..n]);
      PanelIsDelivered(d, c, run[..n]);
      ReachedInv(d, c, run[..n]);
      StepPanel(d, c, run);
    }
  }

  lemma NothingHeldYet(d: Digests, c: Config)
    ensures Holds(Initial(c).panel, [])
  {
  }

  lemma StepPanel(d: Digests, c: Config, run: Run)
    requires Shape(c) && run != []
    requires var n := |run| - 1;
             var s := Reached(d, c, run[..n]);
             Inv(d, c, s) && if Drawn(s.life.status) then s.panel.submitted == [] else Holds(s.panel, DeliveredIn(d, c, run[..n]))
    ensures var t := Reached(d, c, run);
            if Drawn(t.life.status) then t.panel.submitted == [] else Holds(t.panel, DeliveredIn(d, c, run))
  {
    hide After, Holds, Inv, AcceptedDelivery;
    var n := |run| - 1;
    var s, t := Reached(d, c, run[..n]), Reached(d, c, run);
    var more := AcceptedDelivery(d, c, run[n].0, s, run[n].1);
    AtMostOne(d, c, run[n].0, s, run[n].1);
    StepCollects(d, c, run[n].0, s, run[n].1);
    if Drawn(s.life.status) {
      DrawnStays(d, c, run[n].0, s, run[n].1);
    } else if !Drawn(t.life.status) {
      HeldCollects(s, t, DeliveredIn(d, c, run[..n]), more);
    }
  }

  lemma AtMostOne(d: Digests, c: Config, e: Env, s: State, call: Call)
    ensures |AcceptedDelivery(d, c, e, s, call)| <= 1
  {
  }

  /** A wiped raffle holds no delivery exactly when it was drawn or never accepted one. */
  lemma WipeClearsPanelIff(d: Digests, c: Config, run: Run, t: State)
    requires Shape(c) && Gives(Wipe(c, Reached(d, c, run)), t)
    ensures t.panel == Panel([], map[]) <==> Drawn(t.life.status) || DeliveredIn(d, c, run) == []
  {
    hide After;
    PanelIsDelivered(d, c, run);
    ReachedInv(d, c, run);
    EmptyPanel(c, Reached(d, c, run).life.status, t.panel);
  }

  lemma EmptyPanel(c: Config, status: Status, p: Panel)
    requires QuorumPhase(c, status, p)
    ensures p == Panel([], map[]) <==> p.submitted == []
  {
    if p.submitted == [] {
      assert forall a: Address :: a !in p.seeds;
    }
  }

  /** Over and unlocked, as after a wipe. */
  ghost predicate Retired(s: State)
  {
    !s.life.lock && (Refunding(s.life.status) || s.life.status == Claimed)
  }

  lemma TerminalStays(d: Digests, c: Config, e: Env, s: State, call: Call)
    requires Shape(c) && Inv(d, c, s) && Retired(s)
    ensures After(d, c, e, s, call).life.status == s.life.status
  {
    hide After, Inv;
    StepIsKept(d, c, e, s, call);
  }

  lemma RetiredStep(d: Digests, c: Config, e: Env, s: State, call: Call)
    requires Shape(c) && Inv(d, c, s) && Retired(s)
    ensures Retired(After(d, c, e, s, call)) && After(d, c, e, s, call).panel == s.panel
  {
    TerminalStays(d, c, e, s, call);
    if Draws(call) || Delivers(call) {
      RetiredRejects(d, c, e, s, call);
    } else {
      OthersLeavePanel(d, c, e, s, call);
    }
  }

  lemma RetiredRejects(d: Digests, c: Config, e: Env, s: State, call: Call)
    requires Retired(s)
    ensures Draws(call) ==> DrawStep(d, c, e, s, call).Reject?
    ensures Delivers(call) ==> DeliveryStep(d, c, e, s, call).Reject?
  {
  }

  lemma {:induction false} LeftoversStay(d: Digests, c: Config, s: State, run: Run)
    requires Shape(c) && Inv(d, c, s) && Retired(s)
    ensures var t := Execute(d, c, s, run);
            Inv(d, c, t) && Retired(t) && t.panel == s.panel
    decreases |run|
  {
    hide After, Inv, Retired;
    if run != [] {
      var n := |run| - 1;
      LeftoversStay(d, c, s, run[..n]);
      var t := Execute(d, c, s, run[..n]);
      RetiredStep(d, c, run[n].0, t, run[n].1);
      StepKeeps(d, c, run[n].0, t, run[n].1);
    }
  }

  /** What a wipe leaves on record no further run removes. */
  lemma WipedPanelStays(d: Digests, c: Config, s: State, t: State, run: Run)
    requires Shape(c) && Inv(d, c, s) && Gives(Wipe(c, s), t)
    ensures Execute(d, c, t, run).panel == s.panel
  {
    var e := Env(0, 0, false, 0, 0, 0);
    WipeIsStep(d, c, e, s);
    StepKeeps(d, c, e, s, WipeStorage);
    LeftoversStay(d, c, t, run);
  }

  lemma WipeIsStep(d: Digests, c: Config, e: Env, s: State)
    ensures Step(d, c, e, s, WipeStorage) == Wipe(c, s)
  {
  }
}
