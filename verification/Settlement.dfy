/** Full settlement of a cancelled or failed raffle: in whatever order refunds are asked for,
    every outstanding claim succeeds, and together they pay exactly what was owed. */
module Settlement {
  import opened Common
  import opened Config
  import opened Escrow
  import opened Invariants
  import opened Solvency

  /** A refunding raffle whose balance covers its obligations. */
  ghost predicate Refundable(d: Digests, c: Config, s: State)
  {
    && Valid(c) && Inv(d, c, s) && Refunding(s.life.status)
    && s.purse.fees >= 0 && Solvent(c, s)
  }

  /** Every listed ticket exists, and the caller paid for it or owns it. */
  predicate MayBatch(b: Book, caller: Address, ids: seq<int>)
  {
    forall i | 0 <= i < |ids| ::
      ids[i] in b.tickets && (caller == b.tickets[ids[i]].payer || caller == b.tickets[ids[i]].owner)
  }

  function IdSet(ids: seq<int>): set<int>
  {
    set id | id in ids
  }

  // ---------------------------------------------------------------------------
  // Coverage

  lemma {:induction false} OwedIncludes(c: Config, tickets: map<int, Ticket>, refunded: set<int>, n: nat, id: int)
    requires c.ticketPrice >= 0 && 1 <= id <= n && id in tickets && id !in refunded
    ensures TicketsOwed(c, tickets, refunded, n) >= c.ticketPrice
  {
    OwedIsNonNegative(c, tickets, refunded, n - 1);
    if id < n {
      OwedIncludes(c, tickets, refunded, n - 1, id);
    }
  }

  /** The balance covers what is owed, seen through the fields a refund reads. */
  ghost predicate Covered(c: Config, s: State)
  {
    && RefundBooks(c, s) && c.ticketPrice >= 0 && c.prizeAmount >= 0 && s.purse.fees >= 0 && Slack(c, s) >= 0
  }

  lemma TicketIsCovered(c: Config, s: State, id: int)
    requires Covered(c, s) && id in s.book.tickets && id !in s.book.refunded
    ensures s.purse.balance >= c.ticketPrice
  {
    assert id in Ids(s.book.sold);
    OwedIncludes(c, s.book.tickets, s.book.refunded, s.book.sold, id);
  }

  lemma DistinctDue(refunded: set<int>, ids: seq<int>)
    requires ids != []
    ensures IdSet(ids) == {ids[0]} + IdSet(ids[1..])
    ensures ids[0] in refunded ==> IdSet(ids) - refunded == IdSet(ids[1..]) - refunded
    ensures ids[0] !in refunded ==> |IdSet(ids) - refunded| == 1 + |IdSet(ids[1..]) - (refunded + {ids[0]})|
  {
    assert IdSet(ids) == {ids[0]} + IdSet(ids[1..]);
    if ids[0] !in refunded {
      assert IdSet(ids) - refunded == {ids[0]} + (IdSet(ids[1..]) - (refunded + {ids[0]}));
    } else {
      assert IdSet(ids) - refunded == IdSet(ids[1..]) - refunded;
    }
  }

  lemma BatchTail(b: Book, caller: Address, ids: seq<int>)
    requires ids != [] && MayBatch(b, caller, ids)
    ensures MayBatch(b, caller, ids[1..])
    ensures ids[0] in b.tickets && (caller == b.tickets[ids[0]].payer || caller == b.tickets[ids[0]].owner)
  {
    forall i | 0 <= i < |ids[1..]|
      ensures ids[1..][i] == ids[i + 1]
    {
    }
  }

  lemma {:induction false} BatchSucceeds(c: Config, s: State, caller: Address, ids: seq<int>)
    requires Covered(c, s) && MayBatch(s.book, caller, ids)
    ensures var o := RefundAll(c, s, caller, ids);
            o.Accept? && o.post.book.refunded == s.book.refunded + IdSet(ids)
    decreases |ids|
  {
    if ids == [] {
      assert IdSet(ids) == {};
    } else {
      var t := s.book.tickets[ids[0]];
      BatchTail(s.book, caller, ids);
      assert IdSet(ids) == {ids[0]} + IdSet(ids[1..]);
      if ids[0] in s.book.refunded {
        BatchSucceeds(c, s, caller, ids[1..]);
      } else {
        var u := PayRefund(s, ids[0], t.payer, c.ticketPrice);
        TicketIsCovered(c, s, ids[0]);
        assert Covered(c, u) by {
          OneRefundKeepsBooks(c, s, ids[0], t.payer, c.ticketPrice);
          OneRefundSlack(c, s, ids[0], t.payer);
        }
        BatchSucceeds(c, u, caller, ids[1..]);
      }
    }
  }

  /** How many refunds a batch makes when it goes through its list one ticket at a time. */
  function DueCount(refunded: set<int>, ids: seq<int>): nat
    decreases |ids|
  {
    if ids == [] then 0
    else if ids[0] in refunded then DueCount(refunded, ids[1..])
    else 1 + DueCount(refunded + {ids[0]}, ids[1..])
  }

  /** The list price once for each of them. */
  function DuePrice(c: Config, refunded: set<int>, ids: seq<int>): int
    decreases |ids|
  {
    if ids == [] then 0
    else if ids[0] in refunded then DuePrice(c, refunded, ids[1..])
    else c.ticketPrice + DuePrice(c, refunded + {ids[0]}, ids[1..])
  }

  lemma {:induction false} DuePriceIsProduct(c: Config, refunded: set<int>, ids: seq<int>)
    ensures DuePrice(c, refunded, ids) == c.ticketPrice * DueCount(refunded, ids)
    decreases |ids|
  {
    if ids != [] {
      var after := if ids[0] in refunded then refunded else refunded + {ids[0]};
      DuePriceIsProduct(c, after, ids[1..]);
      var n := DueCount(after, ids[1..]);
      assert c.ticketPrice * (1 + n) == c.ticketPrice + c.ticketPrice * n;
    }
  }

  lemma {:induction false} BatchPaysDue(c: Config, s: State, caller: Address, ids: seq<int>)
    requires RefundAll(c, s, caller, ids).Accept?
    ensures var o := RefundAll(c, s, caller, ids);
            && o.value == DuePrice(c, s.book.refunded, ids)
            && o.post.purse.balance == s.purse.balance - o.value
    decreases |ids|
  {
    if ids != [] {
      var payer := s.book.tickets[ids[0]].payer;
      BatchPaysDue(c, if ids[0] in s.book.refunded then s else PayRefund(s, ids[0], payer, c.ticketPrice), caller, ids[1..]);
    }
  }

  lemma {:induction false} DueCountIsDistinct(refunded: set<int>, ids: seq<int>)
    ensures DueCount(refunded, ids) == |IdSet(ids) - refunded|
    decreases |ids|
  {
    if ids == [] {
      assert IdSet(ids) - refunded == {};
    } else {
      DistinctDue(refunded, ids);
      DueCountIsDistinct(if ids[0] in refunded then refunded else refunded + {ids[0]}, ids[1..]);
    }
  }

  /** A batch pays the list price once for each distinct ticket it lists that is still due. */
  lemma BatchPaysOnce(c: Config, s: State, caller: Address, ids: seq<int>)
    requires RefundAll(c, s, caller, ids).Accept?
    ensures var o := RefundAll(c, s, caller, ids);
            && o.value == c.ticketPrice * |IdSet(ids) - s.book.refunded|
            && o.post.purse.balance == s.purse.balance - o.value
  {
    BatchPaysDue(c, s, caller, ids);
    DuePriceIsProduct(c, s.book.refunded, ids);
    DueCountIsDistinct(s.book.refunded, ids);
  }

  lemma {:induction false} BatchNeedsRights(c: Config, s: State, caller: Address, ids: seq<int>)
    requires RefundAll(c, s, caller, ids).Accept?
    ensures MayBatch(s.book, caller, ids)
    decreases |ids|
  {
    if ids != [] {
      var t := s.book.tickets[ids[0]];
      BatchNeedsRights(c, if ids[0] in s.book.refunded then s else PayRefund(s, ids[0], t.payer, c.ticketPrice), caller, ids[1..]);
      forall i | 0 <= i < |ids|
        ensures ids[i] in s.book.tickets
             && (caller == s.book.tickets[ids[i]].payer || caller == s.book.tickets[ids[i]].owner)
      {
        assert i > 0 ==> ids[i] == ids[1..][i - 1];
      }
    }
  }

  lemma RefundableIsCovered(d: Digests, c: Config, s: State)
    requires Refundable(d, c, s)
    ensures Covered(c, s)
  {
  }

  // ---------------------------------------------------------------------------
  // Exactly which refunds succeed

  lemma TicketRefundIff(d: Digests, c: Config, s: State, id: int)
    requires Refundable(d, c, s)
    ensures Refund(s, id).Accept? <==> id in s.book.tickets && id !in s.book.refunded
  {
    RefundableIsCovered(d, c, s);
    if id in s.book.tickets && id !in s.book.refunded {
      TicketIsCovered(c, s, id);
    }
  }

  lemma BatchRefundIff(d: Digests, c: Config, s: State, caller: Address, ids: seq<int>)
    requires Refundable(d, c, s)
    ensures Batch(c, s, caller, ids).Accept? <==> MayBatch(s.book, caller, ids)
  {
    RefundableIsCovered(d, c, s);
    if MayBatch(s.book, caller, ids) {
      BatchSucceeds(c, s, caller, ids);
    } else if Batch(c, s, caller, ids).Accept? {
      BatchNeedsRights(c, s, caller, ids);
      assert false;
    }
  }

  lemma PrizeRefundIff(d: Digests, c: Config, s: State)
    requires Refundable(d, c, s)
    ensures RefundThePrize(c, s).Accept? <==> s.life.prizeDeposited
  {
    OwedIsNonNegative(c, s.book.tickets, s.book.refunded, s.book.sold);
  }

  // ---------------------------------------------------------------------------
  // Any interleaving

  /** A refund call its caller is entitled to make, whether or not it has been made before. */
  predicate Entitled(b: Book, call: Call)
  {
    match call
    case RefundPrize => true
    case RefundTicket(id) => id in b.tickets
    case BatchRefund(caller, ids) => MayBatch(b, caller, ids)
    case _ => false
  }

  function Named(call: Call): set<int>
  {
    match call
    case RefundTicket(id) => {id}
    case BatchRefund(_, ids) => IdSet(ids)
    case _ => {}
  }

  ghost predicate RefundRun(b: Book, run: Run)
  {
    forall i :: 0 <= i < |run| ==> Entitled(b, run[i].1)
  }

  function NamedIn(run: Run): set<int>
  {
    if run == [] then {} else NamedIn(run[..|run| - 1]) + Named(run[|run| - 1].1)
  }

  predicate AsksForPrize(run: Run)
  {
    exists i | 0 <= i < |run| :: run[i].1.RefundPrize?
  }

  /** The state after refunds of `ids`, and of the prize if `prize`, with nothing else changed. */
  ghost predicate RefundedTo(c: Config, s: State, t: State, ids: set<int>, prize: bool)
  {
    && t == s.(life := s.life.(prizeDeposited := s.life.prizeDeposited && !prize),
               book := s.book.(refunded := s.book.refunded + ids), purse := t.purse)
    && t.purse.fees == s.purse.fees
    && Slack(c, t) == Slack(c, s)
  }

  lemma BatchStep(d: Digests, c: Config, s: State, caller: Address, ids: seq<int>)
    requires Refundable(d, c, s) && MayBatch(s.book, caller, ids)
    ensures Batch(c, s, caller, ids).Accept? && RefundedTo(c, s, Batch(c, s, caller, ids).post, IdSet(ids), false)
  {
    hide Inv, Valid, Covered, Slack;
    RefundableHasBooks(d, c, s);
    BatchRefundIff(d, c, s, caller, ids);
    RefundableIsCovered(d, c, s);
    BatchSucceeds(c, s, caller, ids);
    RefundFrame(c, s, caller, ids);
    RefundAllSlack(c, s, caller, ids);
  }

  lemma RefundableHasBooks(d: Digests, c: Config, s: State)
    requires Refundable(d, c, s)
    ensures RefundBooks(c, s)
  {
  }

  lemma PrizeStep(d: Digests, c: Config, s: State)
    requires Refundable(d, c, s)
    ensures var o := RefundThePrize(c, s);
            RefundedTo(c, s, if o.Accept? then o.post else s, {}, true)
  {
    PrizeRefundIff(d, c, s);
  }

  lemma TicketStep(d: Digests, c: Config, s: State, id: int)
    requires Refundable(d, c, s) && id in s.book.tickets
    ensures var o := Refund(s, id);
            RefundedTo(c, s, if o.Accept? then o.post else s, {id}, false)
  {
    hide Slack;
    TicketRefundIff(d, c, s, id);
    RefundTicketSlack(d, c, s, id);
  }

  lemma OneRefundStep(d: Digests, c: Config, s: State, call: Call)
    requires Refundable(d, c, s) && Entitled(s.book, call)
    ensures var o := RefundStep(c, s, call);
            RefundedTo(c, s, if o.Accept? then o.post else s, Named(call), call.RefundPrize?)
  {
    hide Refundable, RefundedTo, RefundThePrize, Refund;
    match call
    case RefundPrize => PrizeStep(d, c, s);
    case RefundTicket(id) => TicketStep(d, c, s, id);
    case BatchRefund(caller, ids) => BatchStep(d, c, s, caller, ids);
  }

  lemma RefundTicketSlack(d: Digests, c: Config, s: State, id: int)
    requires Refundable(d, c, s) && id in s.book.tickets
    ensures id !in s.book.refunded ==> Slack(c, PayRefund(s, id, s.book.tickets[id].owner, c.ticketPrice)) == Slack(c, s)
  {
    assert RefundBooks(c, s);
    if id !in s.book.refunded {
      OneRefundSlack(c, s, id, s.book.tickets[id].owner);
    }
  }

  lemma RefundCallIsStep(d: Digests, c: Config, e: Env, s: State, call: Call)
    requires Refunds(call)
    ensures Step(d, c, e, s, call) == RefundStep(c, s, call)
  {
  }

  /** Any run of entitled refunds marks exactly the tickets it names, returns the prize if it
      asks for it, and leaves the surplus over the remaining obligations unchanged. */
  lemma {:induction false} RefundsInterleave(d: Digests, c: Config, s: State, run: Run)
    requires Refundable(d, c, s) && RefundRun(s.book, run)
    ensures RefundedTo(c, s, Execute(d, c, s, run), NamedIn(run), AsksForPrize(run))
    ensures Refundable(d, c, Execute(d, c, s, run))
    decreases |run|
  {
    hide Inv, Slack;
    if run != [] {
      var n := |run| - 1;
      RefundsInterleave(d, c, s, run[..n]);
      var t := Execute(d, c, s, run[..n]);
      RefundCallIsStep(d, c, run[n].0, t, run[n].1);
      var u := Execute(d, c, s, run);
      OneRefundStep(d, c, t, run[n].1);
      StepKeeps(d, c, run[n].0, t, run[n].1);
      StaysRefundable(d, c, t, u, Named(run[n].1), run[n].1.RefundPrize?);
      RefundsCompose(c, s, t, u, NamedIn(run[..n]), AsksForPrize(run[..n]), Named(run[n].1), run[n].1.RefundPrize?);
      AskedLast(run);
    } else {
      assert RefundedTo(c, s, s, {}, false);
    }
  }

  lemma StaysRefundable(d: Digests, c: Config, t: State, u: State, ids: set<int>, prize: bool)
    requires Refundable(d, c, t) && RefundedTo(c, t, u, ids, prize) && Inv(d, c, u)
    ensures Refundable(d, c, u)
  {
  }

  lemma RefundsCompose(c: Config, s: State, t: State, u: State, first: set<int>, p: bool, next: set<int>, q: bool)
    requires RefundedTo(c, s, t, first, p) && RefundedTo(c, t, u, next, q)
    ensures RefundedTo(c, s, u, first + next, p || q)
  {
    assert s.book.refunded + first + next == s.book.refunded + (first + next);
  }

  lemma AskedLast(run: Run)
    requires run != []
    ensures AsksForPrize(run) == (AsksForPrize(run[..|run| - 1]) || run[|run| - 1].1.RefundPrize?)
  {
    var n := |run| - 1;
    if i :| 0 <= i < |run| && run[i].1.RefundPrize? && i < n {
      assert run[..n][i].1.RefundPrize?;
    }
  }

  /** Once the refunds have named every ticket and the prize, the raffle is settled: nothing is
      owed but recorded fees, and the refunds paid out exactly what was owed before. */
  lemma RefundsSettle(d: Digests, c: Config, s: State, run: Run)
    requires Refundable(d, c, s) && RefundRun(s.book, run)
    requires s.book.tickets.Keys <= NamedIn(run) && AsksForPrize(run)
    ensures var t := Execute(d, c, s, run);
            && (Intact(s.book.tickets, s.book.sold) ==> Settled(t))
            && Owed(c, t) == s.purse.fees
            && s.purse.balance - t.purse.balance == Owed(c, s) - s.purse.fees
  {
    RefundsInterleave(d, c, s, run);
    var t := Execute(d, c, s, run);
    NothingOwed(c, t.book.tickets, t.book.refunded, t.book.sold);
    if Intact(s.book.tickets, s.book.sold) {
      forall id: int | 1 <= id <= s.book.sold
        ensures id in t.book.refunded
      {
        assert id in Ids(s.book.sold);
      }
    }
  }

  /** The hypotheses hold in every cancelled or failed state that a fee-free, list-priced run
      reaches. */
  lemma ReachedIsRefundable(d: Digests, c: Config, run: Run)
    requires Valid(c) && ListPriced(c) && c.protocolFeeBp == 0 && FeeFree(run)
    requires Refunding(Reached(d, c, run).life.status)
    ensures Refundable(d, c, Reached(d, c, run))
  {
    hide After;
    ReachedSound(d, c, run);
  }

  /** So every cancelled or failed raffle that such a run reaches, and nobody has wiped, is
      settled by any sequence of entitled refunds that names everything, in any order. */
  lemma EveryReachedRaffleSettles(d: Digests, c: Config, run: Run, refunds: Run)
    requires Valid(c) && ListPriced(c) && c.protocolFeeBp == 0 && FeeFree(run)
    requires var s := Reached(d, c, run);
             && Refunding(s.life.status) && Intact(s.book.tickets, s.book.sold)
             && RefundRun(s.book, refunds) && Ids(s.book.sold) <= NamedIn(refunds) && AsksForPrize(refunds)
    ensures var s, t := Reached(d, c, run), Execute(d, c, Reached(d, c, run), refunds);
            Settled(t) && Owed(c, t) == 0 && s.purse.balance - t.purse.balance == Owed(c, s)
  {
    hide After;
    ReachedSound(d, c, run);
    ReachedIsRefundable(d, c, run);
    RefundsSettle(d, c, Reached(d, c, run), refunds);
  }
}
