/** Price limits of an execution plan: evaluation against fresh depth, constraint to the
    limits approved with the preview, and validation of a signed plan.

    The market data and the order-book quote are parameters. The code's tolerance for the
    last bits of a float, eight units in the last place, is kept as a relative noise.
 */
module PriceLimits {
  import opened Basics

  const NOISE: real := 8.0 / 4503599627370496.0
  const PAIR_IMPACT_BUDGET: real := 0.002
  const IMPACT_SLACK: real := 1e-12

  datatype Side = Long | Short

  datatype Leg = Leg(
    venue: string, side: Side, slippage: real, depthImpact: real, expectedPrice: real, limitPrice: real)

  datatype LegQuote = LegQuote(price: real, worst: real, impact: real)

  /** What evaluation found out about the depth. */
  datatype Depth =
    | Rejected
    | StaleBbo
    | Bbo(amount: real, longPrice: real, shortPrice: real)
    | Unavailable
    | Insufficient
    | Quoted(amount: real, long: LegQuote, short: LegQuote)

  datatype Liquidity = Liquidity(status: string, requiresAcknowledgement: bool)

  predicate Evaluable(d: Depth) { d.Bbo? || d.Quoted? }

  function QuoteFor(d: Depth, side: Side): LegQuote
    requires Evaluable(d)
  {
    match d
    case Bbo(_, longPrice, shortPrice) =>
      var p := if side == Long then longPrice else shortPrice;
      LegQuote(p, p, 0.0)
    case Quoted(_, long, short) => if side == Long then long else short
  }

  function Multiplier(side: Side, maxSlippage: real): real {
    if side == Long then 1.0 + maxSlippage else 1.0 - maxSlippage
  }

  /** A leg after an evaluation: its own slippage with the new depth component. */
  function Evaluated(leg: Leg, q: LegQuote, maxSlippage: real): Leg {
    leg.(slippage := Max(0.0, leg.slippage - leg.depthImpact) + q.impact,
         depthImpact := q.impact,
         expectedPrice := q.price,
         limitPrice := q.worst * Multiplier(leg.side, maxSlippage))
  }

  function Assessed(d: Depth): Liquidity {
    match d
    case Rejected => Liquidity("", false)
    case StaleBbo => Liquidity("unavailable", false)
    case Unavailable => Liquidity("unavailable", false)
    case Bbo(_, _, _) => Liquidity("bbo", false)
    case Insufficient => Liquidity("insufficient", false)
    case Quoted(_, long, short) => Liquidity("l2", long.impact + short.impact > PAIR_IMPACT_BUDGET + IMPACT_SLACK)
  }

  predicate Outside(price: real, limit: real, side: Side) {
    var epsilon := Max(price, limit) * NOISE;
    if side == Long then price - limit > epsilon else limit - price > epsilon
  }

  /** The tighter of two limits. */
  function Tighter(a: real, b: real, side: Side): real {
    if side == Long then Min(a, b) else Max(a, b)
  }

  predicate NoLooser(a: real, b: real, side: Side) {
    if side == Long then a <= b else a >= b
  }

  /** The marginal price that a limit was computed from. */
  function Marginal(leg: Leg, maxSlippage: real): real
    requires Multiplier(leg.side, maxSlippage) > 0.0
  {
    leg.limitPrice / Multiplier(leg.side, maxSlippage)
  }

  predicate ApprovedFor(approved: map<string, real>, leg: Leg) {
    leg.venue in approved && approved[leg.venue] > 0.0
  }

  predicate Fits(leg: Leg, approved: map<string, real>, maxSlippage: real)
    requires Multiplier(leg.side, maxSlippage) > 0.0
  {
    ApprovedFor(approved, leg)
    && !Outside(Marginal(leg, maxSlippage), Tighter(leg.limitPrice, approved[leg.venue], leg.side), leg.side)
  }

  function Constrained(leg: Leg, approved: map<string, real>): Leg
    requires ApprovedFor(approved, leg)
  {
    leg.(limitPrice := Tighter(leg.limitPrice, approved[leg.venue], leg.side))
  }

  // ----- re-evaluation does not let the depth component pile up

  /** The slippage that is not depth. */
  function Spread(leg: Leg): real { leg.slippage - leg.depthImpact }

  /** One evaluation leaves the rest of the slippage alone exactly when it is not negative. */
  lemma SpreadKeptExactly(leg: Leg, q: LegQuote, maxSlippage: real)
    ensures Spread(Evaluated(leg, q, maxSlippage)) == Spread(leg) <==> leg.slippage >= leg.depthImpact
    ensures Spread(Evaluated(leg, q, maxSlippage)) >= 0.0
  {
  }

  function EvaluatedAll(leg: Leg, quotes: seq<LegQuote>, maxSlippage: real): Leg
    decreases |quotes|
  {
    if quotes == [] then leg else EvaluatedAll(Evaluated(leg, quotes[0], maxSlippage), quotes[1..], maxSlippage)
  }

  /** A planned leg starts with a slippage of at least its depth part: from then on no
      number of evaluations moves the rest of it. */
  lemma {:induction false} SpreadNeverDrifts(leg: Leg, quotes: seq<LegQuote>, maxSlippage: real)
    requires leg.slippage >= leg.depthImpact
    ensures Spread(EvaluatedAll(leg, quotes, maxSlippage)) == Spread(leg)
    decreases |quotes|
  {
    if quotes != [] {
      SpreadKeptExactly(leg, quotes[0], maxSlippage);
      SpreadNeverDrifts(Evaluated(leg, quotes[0], maxSlippage), quotes[1..], maxSlippage);
    }
  }

  /** Any number of evaluations amounts to the last one. */
  lemma {:induction false} OnlyLastQuoteCounts(leg: Leg, quotes: seq<LegQuote>, maxSlippage: real)
    requires quotes != []
    ensures EvaluatedAll(leg, quotes, maxSlippage) == Evaluated(leg, quotes[|quotes| - 1], maxSlippage)
    decreases |quotes|
  {
    if |quotes| > 1 {
      var next := Evaluated(leg, quotes[0], maxSlippage);
      OnlyLastQuoteCounts(next, quotes[1..], maxSlippage);
      SpreadKeptExactly(leg, quotes[0], maxSlippage);
      assert Max(0.0, next.slippage - next.depthImpact) == Max(0.0, leg.slippage - leg.depthImpact);
    }
  }

  // ----- limits only tighten

  lemma Quotient(worst: real, multiplier: real)
    requires multiplier > 0.0
    ensures (worst * multiplier) / multiplier == worst
  {
  }

  /** An evaluated limit gives back the worst price it was computed from. */
  lemma MarginalIsWorst(leg: Leg, q: LegQuote, maxSlippage: real)
    requires Multiplier(leg.side, maxSlippage) > 0.0
    ensures Marginal(Evaluated(leg, q, maxSlippage), maxSlippage) == q.worst
    ensures Evaluated(leg, q, maxSlippage).side == leg.side
  {
    Quotient(q.worst, Multiplier(leg.side, maxSlippage));
  }

  lemma Beyond(worst: real, multiplier: real)
    requires worst >= 0.0 && multiplier > 0.0
    ensures multiplier >= 1.0 ==> worst * multiplier >= worst && worst / multiplier <= worst
    ensures multiplier <= 1.0 ==> worst * multiplier <= worst && worst / multiplier >= worst
  {
    var q := worst / multiplier;
    assert q * multiplier == worst;
    assert q >= 0.0;
  }

  /** A quoted leg fits exactly when its marginal price is inside the approved limit, up to
      the noise: the evaluation's own allowance never helps it. */
  lemma FitsIffMarginalApproved(leg: Leg, q: LegQuote, approved: map<string, real>, maxSlippage: real)
    requires 0.0 <= maxSlippage < 1.0 && q.worst > 0.0
    ensures Multiplier(leg.side, maxSlippage) > 0.0
    ensures Fits(Evaluated(leg, q, maxSlippage), approved, maxSlippage)
            <==> ApprovedFor(approved, leg) && !Outside(q.worst, approved[leg.venue], leg.side)
  {
    var m := Multiplier(leg.side, maxSlippage);
    Quotient(q.worst, m);
    Beyond(q.worst, m);
    assert Marginal(Evaluated(leg, q, maxSlippage), maxSlippage) == q.worst;
    InsideIsNotOutside(q.worst, q.worst * m, leg.side);
  }

  lemma InsideIsNotOutside(price: real, limit: real, side: Side)
    requires price >= 0.0 && NoLooser(price, limit, side)
    ensures !Outside(price, limit, side)
  {
    assert Max(price, limit) * NOISE >= 0.0;
  }

  /** A constrained limit is no looser than the evaluated and the approved one, and is one of them. */
  lemma ConstraintTightens(leg: Leg, approved: map<string, real>)
    requires ApprovedFor(approved, leg)
    ensures var limit := Constrained(leg, approved).limitPrice;
            && NoLooser(limit, leg.limitPrice, leg.side) && NoLooser(limit, approved[leg.venue], leg.side)
            && (limit == leg.limitPrice || limit == approved[leg.venue])
  {
  }

  /** Constraining again never fails and changes nothing. */
  lemma ConstraintIsIdempotent(leg: Leg, approved: map<string, real>, maxSlippage: real)
    requires 0.0 <= maxSlippage < 1.0 && leg.limitPrice > 0.0 && ApprovedFor(approved, leg)
    ensures Multiplier(leg.side, maxSlippage) > 0.0
    ensures Fits(Constrained(leg, approved), approved, maxSlippage)
    ensures Constrained(Constrained(leg, approved), approved) == Constrained(leg, approved)
  {
    var c := Constrained(leg, approved);
    Beyond(c.limitPrice, Multiplier(leg.side, maxSlippage));
    InsideIsNotOutside(Marginal(c, maxSlippage), c.limitPrice, leg.side);
  }

  // ----- what evaluation, approval and validation go by

  /** Only a best price with its own size, or a full quote, evaluates a leg: a long one at the asks, a
      short one at the bids, the best price without impact. */
  lemma QuotedBySide(d: Depth, side: Side)
    ensures Evaluable(d) <==> d.Bbo? || d.Quoted?
    ensures d.Bbo? ==>
              QuoteFor(d, side) == if side == Long then LegQuote(d.longPrice, d.longPrice, 0.0)
                                   else LegQuote(d.shortPrice, d.shortPrice, 0.0)
    ensures d.Quoted? ==> QuoteFor(d, side) == if side == Long then d.long else d.short
  {
  }

  /** Impact has to be acknowledged exactly when both together go beyond 0.2%, up to 1e-12. */
  lemma AcknowledgementNeeded(d: Depth)
    ensures Assessed(d).requiresAcknowledgement <==>
              d.Quoted? && d.long.impact + d.short.impact - 0.002 > 0.000000000001
    ensures Assessed(d).status ==
            (if d.Quoted? then "l2" else if d.Bbo? then "bbo" else if d.Insufficient? then "insufficient"
             else if d.Rejected? then "" else "unavailable")
  {
  }

  /** An evaluated leg expects the quoted price; its limit is the marginal price with the allowance of
      the plan, above it for a long leg and below it for a short one. */
  lemma LimitAllowsSlippage(leg: Leg, q: LegQuote, maxSlippage: real)
    requires q.worst >= 0.0 && maxSlippage >= 0.0
    ensures var e := Evaluated(leg, q, maxSlippage);
            && e.expectedPrice == q.price && e.depthImpact == q.impact && e.venue == leg.venue && e.side == leg.side
            && e.slippage >= q.impact
            && (leg.side == Long ==> e.limitPrice - q.worst == q.worst * maxSlippage >= 0.0)
            && (leg.side == Short ==> q.worst - e.limitPrice == q.worst * maxSlippage >= 0.0)
  {
  }

  /** A limit counts as approved, and a signed one is enforced, exactly when it is positive. */
  lemma OnlyPositiveLimitsCount(leg: Leg, q: LegQuote, approved: map<string, real>, maxSlippage: real)
    ensures ApprovedFor(approved, leg) <==> leg.venue in approved && approved[leg.venue] > 0.0
    ensures leg.limitPrice <= 0.0 ==> WithinSigned(leg, q, maxSlippage)
    ensures leg.limitPrice > 0.0 ==>
              (WithinSigned(leg, q, maxSlippage) <==> !Outside(q.worst, leg.limitPrice, leg.side))
  {
  }

  /** A price is outside a limit exactly when it is worse by more than the noise. */
  lemma OutsideExactly(price: real, limit: real)
    ensures Outside(price, limit, Long) <==> price > limit + Max(price, limit) * NOISE
    ensures Outside(price, limit, Short) <==> price < limit - Max(price, limit) * NOISE
  {
  }

  // ----- plans

  /** What validation asks of a leg: its marginal price is inside the signed limit, if any. */
  predicate WithinSigned(signed: Leg, q: LegQuote, maxSlippage: real) {
    signed.limitPrice > 0.0 ==> !Outside(q.worst, signed.limitPrice, signed.side)
  }

  class Plan {
    var leg1: Leg
    var leg2: Leg
    const maxSlippage: real
    var amount: real
    var liquidity: Option<Liquidity>
    var acknowledged: bool

    predicate Valid()
      reads this
    {
      0.0 <= maxSlippage < 1.0
    }

    constructor (leg1: Leg, leg2: Leg, maxSlippage: real, amount: real, liquidity: Option<Liquidity>,
      acknowledged: bool)
      ensures this.leg1 == leg1 && this.leg2 == leg2 && this.maxSlippage == maxSlippage
      ensures this.amount == amount && this.liquidity == liquidity && this.acknowledged == acknowledged
    {
      this.leg1, this.leg2, this.maxSlippage := leg1, leg2, maxSlippage;
      this.amount, this.liquidity, this.acknowledged := amount, liquidity, acknowledged;
    }

    /** Re-evaluates both legs in place; a failed evaluation changes no leg. */
    method Evaluate(d: Depth) returns (ok: bool)
      modifies this
      ensures ok <==> Evaluable(d)
      ensures leg1 == if ok then Evaluated(old(leg1), QuoteFor(d, old(leg1).side), maxSlippage) else old(leg1)
      ensures leg2 == if ok then Evaluated(old(leg2), QuoteFor(d, old(leg2).side), maxSlippage) else old(leg2)
      ensures amount == if ok then d.amount else old(amount)
      ensures liquidity == if d.Rejected? then old(liquidity) else Some(Assessed(d))
      ensures acknowledged == old(acknowledged)
    {
      ok := Evaluable(d);
      if !d.Rejected? {
        liquidity := Some(Assessed(d));
      }
      if ok {
        leg1 := EvaluateLeg(leg1, QuoteFor(d, leg1.side));
        leg2 := EvaluateLeg(leg2, QuoteFor(d, leg2.side));
        amount := d.amount;
      }
    }

    method EvaluateLeg(leg: Leg, q: LegQuote) returns (r: Leg)
      ensures r == Evaluated(leg, q, maxSlippage)
    {
      var multiplier := 1.0 + maxSlippage;
      if leg.side == Short {
        multiplier := 1.0 - maxSlippage;
      }
      r := leg;
      r := r.(slippage := Max(0.0, r.slippage - r.depthImpact) + q.impact);
      r := r.(depthImpact := q.impact);
      r := r.(expectedPrice := q.price, limitPrice := q.worst * multiplier);
    }

    /** Tightens both limits to the approved ones. A refusal leaves every limit as it was or
        tighter: the first leg may have been constrained before the second was refused. */
    method Constrain(approved: Option<map<string, real>>) returns (ok: bool)
      requires Valid()
      modifies this`leg1, this`leg2
      ensures approved.None? ==> ok && leg1 == old(leg1) && leg2 == old(leg2)
      ensures approved.Some? ==>
                (ok <==>
                 |approved.value| == 2 && Fits(old(leg1), approved.value, maxSlippage)
                 && Fits(old(leg2), approved.value, maxSlippage))
      ensures approved.Some? && ok ==>
                leg1 == Constrained(old(leg1), approved.value) && leg2 == Constrained(old(leg2), approved.value)
      ensures !ok ==> leg2 == old(leg2) && (leg1 == old(leg1) || leg1 == old(leg1).(limitPrice := leg1.limitPrice))
      ensures NoLooser(leg1.limitPrice, old(leg1).limitPrice, leg1.side)
              && NoLooser(leg2.limitPrice, old(leg2).limitPrice, leg2.side)
    {
      ok := true;
      if approved.Some? {
        ok := |approved.value| == 2;
        if ok {
          ok := ApprovedFor(approved.value, leg1)
                && !Outside(leg1.limitPrice / Multiplier(leg1.side, maxSlippage),
                            Tighter(leg1.limitPrice, approved.value[leg1.venue], leg1.side), leg1.side);
        }
        if ok {
          leg1 := leg1.(limitPrice := Tighter(leg1.limitPrice, approved.value[leg1.venue], leg1.side));
          ok := ApprovedFor(approved.value, leg2)
                && !Outside(leg2.limitPrice / Multiplier(leg2.side, maxSlippage),
                            Tighter(leg2.limitPrice, approved.value[leg2.venue], leg2.side), leg2.side);
          if ok {
            leg2 := leg2.(limitPrice := Tighter(leg2.limitPrice, approved.value[leg2.venue], leg2.side));
          }
        }
      }
    }

    method AcknowledgeImpact(acknowledged: bool) returns (ok: bool)
      modifies this`acknowledged
      ensures ok <==> (liquidity.Some? && liquidity.value.requiresAcknowledgement ==> acknowledged)
      ensures this.acknowledged == if ok then acknowledged else old(this.acknowledged)
    {
      ok := liquidity.None? || !liquidity.value.requiresAcknowledgement || acknowledged;
      if ok {
        this.acknowledged := acknowledged;
      }
    }

    /** Checks a signed plan against fresh depth on a copy; the plan itself is left alone. */
    method Validate(d: Depth) returns (ok: bool)
      requires Valid()
      ensures ok <==>
                && Evaluable(d) && (Assessed(d).requiresAcknowledgement ==> acknowledged)
                && WithinSigned(leg1, QuoteFor(d, leg1.side), maxSlippage)
                && WithinSigned(leg2, QuoteFor(d, leg2.side), maxSlippage)
    {
      hide Outside, QuoteFor;
      var check := new Plan(leg1, leg2, maxSlippage, amount, liquidity, acknowledged);
      ok := check.Evaluate(d);
      if ok {
        ok := check.AcknowledgeImpact(acknowledged);
      }
      if ok {
        MarginalIsWorst(leg1, QuoteFor(d, leg1.side), maxSlippage);
        MarginalIsWorst(leg2, QuoteFor(d, leg2.side), maxSlippage);
        var worst1 := check.leg1.limitPrice / Multiplier(leg1.side, maxSlippage);
        var worst2 := check.leg2.limitPrice / Multiplier(leg2.side, maxSlippage);
        ok := (leg1.limitPrice <= 0.0 || !Outside(worst1, leg1.limitPrice, leg1.side))
              && (leg2.limitPrice <= 0.0 || !Outside(worst2, leg2.limitPrice, leg2.side));
      }
    }
  }

  /** A leg that passed its constraint validates against the quote it was evaluated with. */
  lemma ConstrainedLegValidates(leg: Leg, q: LegQuote, approved: map<string, real>, maxSlippage: real)
    requires 0.0 <= maxSlippage < 1.0 && q.worst > 0.0
    requires Multiplier(leg.side, maxSlippage) > 0.0 && Fits(Evaluated(leg, q, maxSlippage), approved, maxSlippage)
    ensures WithinSigned(Constrained(Evaluated(leg, q, maxSlippage), approved), q, maxSlippage)
  {
    hide Outside;
    MarginalIsWorst(leg, q, maxSlippage);
  }
}
