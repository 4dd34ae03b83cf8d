/** Where the seed of a draw comes from, over every run. */
module DrawSeeds {
  import opened Common
  import opened Config
  import opened Escrow
  import opened Invariants
  import opened Outcomes
  import opened QuorumSeeds

  // ---------------------------------------------------------------------------
  // Commitments in ticket order

  /** `hashes` are the commitments of all tickets `ids` that have one, in ticket order. */
  ghost predicate InTicketOrder(commits: map<int, int>, ids: seq<int>, hashes: seq<int>)
  {
    && (forall i, j :: 0 <= i < j < |ids| ==> ids[i] < ids[j])
    && (forall id :: id in ids <==> id in commits)
    && |hashes| == |ids| && forall i :: 0 <= i < |ids| ==> ids[i] in commits && hashes[i] == commits[ids[i]]
  }

  function UpTo(commits: map<int, int>, n: nat): map<int, int>
  {
    map id | id in commits && 1 <= id <= n :: commits[id]
  }

  lemma {:induction false} HashesInOrder(commits: map<int, int>, n: nat) returns (ids: seq<int>)
    ensures InTicketOrder(UpTo(commits, n), ids, CommitHashes(commits, n))
  {
    if n == 0 {
      ids := [];
    } else {
      var before := HashesInOrder(commits, n - 1);
      if n in commits {
        ids := before + [n];
        OneMoreCommitted(commits, n, before, CommitHashes(commits, n - 1));
      } else {
        ids := before;
        assert UpTo(commits, n) == UpTo(commits, n - 1);
        assert CommitHashes(commits, n) == CommitHashes(commits, n - 1);
      }
    }
  }

  lemma OneMoreCommitted(commits: map<int, int>, n: nat, ids: seq<int>, hashes: seq<int>)
    requires n >= 1 && n in commits && InTicketOrder(UpTo(commits, n - 1), ids, hashes)
    ensures InTicketOrder(UpTo(commits, n), ids + [n], hashes + [commits[n]])
  {
    assert forall i :: 0 <= i < |ids| ==> ids[i] in ids;
    forall id
      ensures id in ids + [n] <==> id in UpTo(commits, n)
    {
      assert id in ids <==> id in UpTo(commits, n - 1);
    }
  }

  lemma AllHashesInOrder(commits: map<int, int>, n: nat) returns (ids: seq<int>)
    requires commits.Keys <= Ids(n)
    ensures InTicketOrder(commits, ids, CommitHashes(commits, n))
    ensures CommitHashes(commits, n) == [] <==> commits == map[]
  {
    assert UpTo(commits, n) == commits;
    ids := HashesInOrder(commits, n);
    if ids == [] {
      assert forall id :: id !in commits;
    } else {
      assert ids[0] in ids;
    }
  }

  // ---------------------------------------------------------------------------
  // One drawing step

  /** What the seed of a draw may be: the answer of the external oracle to the pending request, ten
      ledgers after it at the earliest; the aggregate of the quorum's deliveries; the digest of all
      commitments in ticket order if there are any; and otherwise the ledger's own. */
  ghost predicate SeedComesFrom(d: Digests, c: Config, e: Env, s: State, call: Call, delivered: seq<Delivery>, f: Fairness)
  {
    (f.contributions.Some? <==> c.source.Quorum?) &&
    match c.source
    case External =>
      && call.ProvideRandomness? && f.seed == call.seed == call.proofSeed && call.signatureOk
      && s.life.request.Some? && call.requestId == s.life.request.value.id
      && e.ledger >= s.life.request.value.ledger + 10
    case Quorum(k, oracles) =>
      && call.ProvideQuorumRandomness? && s.life.request.Some? && call.requestId == s.life.request.value.id
      && f.contributions == Some(delivered) && f.seed == Aggregate(d.seeds, delivered)
    case CommitReveal =>
      && call.FinalizeRaffle?
      && if s.book.commits == map[] then f.seed == e.internalSeed
         else exists ids, hashes :: InTicketOrder(s.book.commits, ids, hashes) && f.seed == d.commits(hashes)
    case Internal => call.FinalizeRaffle? && f.seed == e.internalSeed
  }

  /** The draw is recorded at the time and ledger of the call. */
  ghost predicate DrawnAt(e: Env, t: State, f: Fairness)
  {
    t.podium.fairness == Some(f) && t.podium.finalizedAt == Some(e.now) && f.timestamp == e.now && f.sequence == e.ledger
  }

  lemma SettledBy(c: Config, e: Env, s: State, seed: u64, contributions: Option<seq<Delivery>>, t: State)
    requires Gives(FinalizeWithSeed(c, e, s, seed, contributions), t)
    ensures t.podium.fairness.Some? && DrawnAt(e, t, t.podium.fairness.value)
    ensures t.podium.fairness.value.seed == seed && t.podium.fairness.value.contributions == contributions
  {
  }

  lemma FinalizeDraws(d: Digests, c: Config, e: Env, s: State, t: State)
    requires Inv(d, c, s) && Gives(Finalize(d, c, e, s), t) && Drawn(t.life.status)
    ensures !c.source.External? && !c.source.Quorum? && t.podium.fairness.Some?
    ensures DrawnAt(e, t, t.podium.fairness.value)
    ensures SeedComesFrom(d, c, e, s, FinalizeRaffle, [], t.podium.fairness.value)
  {
    hide FinalizeWithSeed, CommitHashes, BuyersListed, CountsOwned, QuorumPhase, DrawRecord, Histories;
    var ids := AllHashesInOrder(s.book.commits, s.book.sold);
    SettledBy(c, e, s.(life := s.life.(status := Drawing, lock := true)), DrawSeed(d, c, e, s), None, t);
  }

  lemma OracleDraws(d: Digests, c: Config, e: Env, s: State, call: Call, t: State)
    requires Valid(c) && call.ProvideRandomness?
    requires Gives(OracleDelivery(c, e, s, call.seed, call.proofSeed, call.signatureOk, call.requestId), t)
    ensures t.podium.fairness.Some? && DrawnAt(e, t, t.podium.fairness.value)
    ensures SeedComesFrom(d, c, e, s, call, [], t.podium.fairness.value)
  {
    hide FinalizeWithSeed;
    SettledBy(c, e, s, call.seed, None, t);
  }

  lemma QuorumDraws(d: Digests, c: Config, e: Env, s: State, call: Call, ds: seq<Delivery>, t: State)
    requires call.ProvideQuorumRandomness? && Holds(s.panel, ds) && !Drawn(s.life.status)
    requires Gives(QuorumDelivery(d, c, e, s, call.oracle, call.seed, call.requestId), t) && Drawn(t.life.status)
    ensures t.podium.fairness.Some? && DrawnAt(e, t, t.podium.fairness.value)
    ensures SeedComesFrom(d, c, e, s, call, ds + [(call.oracle, call.seed)], t.podium.fairness.value)
  {
    hide FinalizeWithSeed, Deliveries, Holds;
    var p := Panel(s.panel.submitted + [call.oracle], s.panel.seeds[call.oracle := call.seed]);
    HeldGrows(s.panel, ds, (call.oracle, call.seed));
    HeldIsDelivered(p, ds + [(call.oracle, call.seed)]);
    var all := Deliveries(p.submitted, p.seeds);
    SettledBy(c, e, s.(panel := p), Aggregate(d.seeds, all), Some(all), t);
  }

  /** Only these calls can draw a raffle. */
  lemma DrawingCalls(d: Digests, c: Config, e: Env, s: State, call: Call)
    requires Shape(c) && Inv(d, c, s) && !Drawn(s.life.status) && Drawn(After(d, c, e, s, call).life.status)
    ensures Step(d, c, e, s, call).Accept?
    ensures call.FinalizeRaffle? || Delivers(call)
  {
    var o := Step(d, c, e, s, call);
    if o.Accept? && call.TriggerFallback? {
      FallbackNeverApplies(d, c, e, s, call.caller, call.refund);
    } else if o.Accept? && !Draws(call) && !Delivers(call) {
      OthersDoNotDraw(d, c, e, s, call);
    }
  }

  lemma OthersDoNotDraw(d: Digests, c: Config, e: Env, s: State, call: Call)
    requires !Draws(call) && !Delivers(call) && !Drawn(s.life.status)
    ensures !Drawn(After(d, c, e, s, call).life.status)
  {
    if call.BatchRefund? && Batch(c, s, call.caller, call.ids).Accept? {
      RefundFrame(c, s, call.caller, call.ids);
    }
  }

  lemma StepSeed(d: Digests, c: Config, e: Env, s: State, call: Call, ds: seq<Delivery>, t: State)
    requires Valid(c) && Inv(d, c, s) && Holds(s.panel, ds)
    requires !Drawn(s.life.status) && Drawn(t.life.status) && t == After(d, c, e, s, call)
    ensures t.podium.fairness.Some? && DrawnAt(e, t, t.podium.fairness.value)
    ensures SeedComesFrom(d, c, e, s, call, ds + AcceptedDelivery(d, c, e, s, call), t.podium.fairness.value)
  {
    hide Inv, Holds, Finalize, OracleDelivery, QuorumDelivery;
    ValidShape(c);
    DrawingCalls(d, c, e, s, call);
    match call {
      case FinalizeRaffle => FinalizeDraws(d, c, e, s, t);
      case ProvideRandomness(_, _, _, _) => OracleDraws(d, c, e, s, call, t);
      case ProvideQuorumRandomness(_, _, _) => QuorumDraws(d, c, e, s, call, ds, t);
      case _ =>
    }
  }

  // ---------------------------------------------------------------------------
  // Every run

  /** Whenever a call draws a raffle, its record carries the seed that the source prescribes; for a
      quorum the one aggregated from exactly the deliveries the run accepted. */
  lemma SeedOfEveryDraw(d: Digests, c: Config, run: Run)
    requires Valid(c) && run != []
    requires !Drawn(Reached(d, c, run[..|run| - 1]).life.status) && Drawn(Reached(d, c, run).life.status)
    ensures var n := |run| - 1;
            var s, t := Reached(d, c, run[..n]), Reached(d, c, run);
            && t.podium.fairness.Some? && DrawnAt(run[n].0, t, t.podium.fairness.value)
            && SeedComesFrom(d, c, run[n].0, s, run[n].1, DeliveredIn(d, c, run), t.podium.fairness.value)
  {
    hide After, SeedComesFrom, DrawnAt, AcceptedDelivery;
    ValidShape(c);
    var n := |run| - 1;
    ReachedInv(d, c, run[..n]);
    PanelIsDelivered(d, c, run[..n]);
    StepSeed(d, c, run[n].0, Reached(d, c, run[..n]), run[n].1, DeliveredIn(d, c, run[..n]), Reached(d, c, run));
  }
}
