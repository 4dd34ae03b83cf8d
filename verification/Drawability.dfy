/** Exactly which configurations can be drawn at all. */
module Drawability {
  import opened Common
  import opened Config
  import opened Escrow
  import opened Invariants
  import opened Liveness
  import opened Reachability
  import opened Record
  import Claims

  /** An external oracle is asked when the last ticket is sold. Any other source is used only at
      a deadline that comes before the last ticket is sold, with the minimum met and a ticket
      for every tier; and a quorum must list enough different oracles. */
  predicate CanBeDrawn(c: Config)
  {
    c.source.External?
    || (&& !c.noDeadline && Max(c.minTickets, |c.prizes|) < c.maxTickets
        && (c.source.Quorum? ==> |OracleSet(c.source.oracles)| >= c.source.k))
  }

  // ---------------------------------------------------------------------------
  // Otherwise no run draws the raffle

  /** Not drawn, and a draw that has started cannot finish. */
  predicate Hopeless(c: Config, s: State)
  {
    !Drawn(s.life.status) && (s.life.status == Drawing ==> !Drawable(c, s))
  }

  lemma SaleIsHopeless(d: Digests, c: Config, e: Env, s: State, call: Call, t: State, v: int)
    requires Inv(d, c, s) && s.life.status == Active && !c.source.External?
    requires Sale(call) && SaleStep(c, e, s, call) == Accept(t, v)
    ensures Hopeless(c, t)
  {
  }

  lemma FinalizeIsHopeless(d: Digests, c: Config, e: Env, s: State, t: State)
    requires Valid(c) && Inv(d, c, s) && s.life.status == Active && !CanBeDrawn(c)
    requires Gives(Finalize(d, c, e, s), t)
    ensures Hopeless(c, t)
  {
  }

  lemma DrawIsHopeless(d: Digests, c: Config, e: Env, s: State, call: Call, t: State, v: int)
    requires Valid(c) && Inv(d, c, s) && s.life.status == Active && !CanBeDrawn(c)
    requires Draws(call) && DrawStep(d, c, e, s, call) == Accept(t, v)
    ensures Hopeless(c, t)
  {
    match call
    case FinalizeRaffle => FinalizeIsHopeless(d, c, e, s, t);
    case TriggerFallback(caller, refund) => FallbackNeverApplies(d, c, e, s, caller, refund);
  }

  lemma ActiveRejects(d: Digests, c: Config, e: Env, s: State, call: Call)
    requires Inv(d, c, s) && s.life.status == Active
    ensures Delivers(call) ==> DeliveryStep(d, c, e, s, call).Reject?
    ensures Payout(call) ==> PayoutStep(c, e, s, call).Reject?
    ensures Refunds(call) ==> RefundStep(c, s, call).Reject?
  {
  }

  lemma StopIsHopeless(c: Config, e: Env, s: State, call: Call, t: State, v: int)
    requires s.life.status == Active && Stops(call) && StopStep(c, e, s, call) == Accept(t, v)
    ensures t.life.status == Active || t.life.status == Cancelled
  {
  }

  lemma OtherIsHopeless(c: Config, s: State, call: Call, t: State, v: int)
    requires (Transfer(call) && TransferStep(c, s, call) == Accept(t, v))
          || (Settings(call) && SettingStep(c, s, call) == Accept(t, v))
    ensures t.life == s.life
  {
  }

  lemma ActiveStep(d: Digests, c: Config, e: Env, s: State, call: Call)
    requires Valid(c) && Inv(d, c, s) && !CanBeDrawn(c) && s.life.status == Active
    ensures Hopeless(c, After(d, c, e, s, call))
  {
    hide Inv, Valid;
    ActiveRejects(d, c, e, s, call);
    var o := Step(d, c, e, s, call);
    if o.Accept? {
      if Sale(call) {
        SaleIsHopeless(d, c, e, s, call, o.post, o.value);
      } else if Draws(call) {
        DrawIsHopeless(d, c, e, s, call, o.post, o.value);
      } else if Stops(call) {
        StopIsHopeless(c, e, s, call, o.post, o.value);
      } else {
        OtherIsHopeless(c, s, call, o.post, o.value);
      }
    }
  }

  lemma HopelessStep(d: Digests, c: Config, e: Env, s: State, call: Call)
    requires Valid(c) && Inv(d, c, s) && !CanBeDrawn(c) && Hopeless(c, s)
    ensures Hopeless(c, After(d, c, e, s, call))
  {
    hide After, Inv, Valid, Drawable;
    if s.life.status == Active {
      ActiveStep(d, c, e, s, call);
    } else if s.life.status == Drawing || s.life.status == Cancelled {
      UndrawableStep(d, c, e, s, call);
    } else {
      ValidShape(c);
      StepIsKept(d, c, e, s, call);
    }
  }

  lemma {:induction false} HopelessStays(d: Digests, c: Config, run: Run)
    requires Valid(c) && !CanBeDrawn(c)
    ensures Hopeless(c, Reached(d, c, run))
    decreases |run|
  {
    hide After;
    if run != [] {
      var n := |run| - 1;
      HopelessStays(d, c, run[..n]);
      ReachedInv(d, c, run[..n]);
      HopelessStep(d, c, run[n].0, Reached(d, c, run[..n]), run[n].1);
    }
  }

  // ---------------------------------------------------------------------------
  // The others are drawn by some run

  /** Continue a run whose draw has started. */
  lemma StartedDrawEnds(d: Digests, c: Config, run: Run) returns (whole: Run)
    requires Valid(c) && Reached(d, c, run).life.status == Drawing && Drawable(c, Reached(d, c, run))
    ensures Drawn(Reached(d, c, whole).life.status)
  {
    hide After;
    ReachedInv(d, c, run);
    DrawableIff(d, c, Reached(d, c, run));
    var rest: Run :| Drawn(Execute(d, c, Reached(d, c, run), rest).life.status);
    Claims.RunsConcatenate(d, c, Initial(c), run, rest);
    whole := run + rest;
  }

  lemma SomeRunDraws(d: Digests, c: Config) returns (run: Run)
    requires Valid(c) && CanBeDrawn(c)
    ensures Drawn(Reached(d, c, run).life.status)
  {
    hide After;
    var n: nat := Max(c.minTickets, |c.prizes|);
    if c.source.External? {
      SoldOutIsReached(d, c);
      run := StartedDrawEnds(d, c, SaleRun(c, c.maxTickets));
    } else if c.source.Quorum? {
      OraclesAreCalled(d, c, n);
      run := StartedDrawEnds(d, c, DrawRun(c, n));
    } else {
      DrawnIsReached(d, c, n);
      run := DrawRun(c, n);
    }
  }

  /** Some run draws a raffle exactly when its configuration allows it. */
  lemma CanBeDrawnIff(d: Digests, c: Config)
    requires Valid(c)
    ensures CanBeDrawn(c) <==> exists run: Run :: Drawn(Reached(d, c, run).life.status)
  {
    if CanBeDrawn(c) {
      var run := SomeRunDraws(d, c);
    } else {
      forall run: Run
        ensures !Drawn(Reached(d, c, run).life.status)
      {
        HopelessStays(d, c, run);
      }
    }
  }
}
