/**
 The pre-trade gate: a pure policy check, then stateful gates that may only tighten it
 (src/shrap/risk_compliance/pre_trade.py, pre_trade_checker_agent.py). The Tier 3 answer, the portfolio assessment
 and the rate limiter's answer are inputs. Quantities are `real`.
 */
module PreTrade {
  import opened Wrappers
  import opened Text

  /** An order intent; the quantity is None when it is not a finite number. */
  datatype Intent = Intent(account: string, ticker: string, side: string, mode: string, quantity: Option<real>)

  datatype Policy = Policy(universe: set<string>, universeCheck: bool, maxQuantity: int, killSwitch: bool)

  /** The decision being built: the fields the gates rewrite. */
  datatype Decision = Decision(approved: bool, reason: string, requested: real, quantity: real,
    approvedIntent: Option<Intent>)

  /** A gate's answer, when the gate is configured: let it pass, or veto for a reason. */
  datatype Gate = Absent | Passes | Vetoes(reason: string)

  datatype Portfolio = NoOfficer | Assessed(approved: bool, reason: string, quantity: real)

  function Refused(reason: string, requested: real): Decision {
    Decision(false, reason, requested, 0.0, None)
  }

  /** `PreTradeChecker.check`, and the nested intent of `build_risk_decision_payload`. */
  function Check(p: Policy, i: Intent): Decision {
    if i.quantity.None? then Refused("INVALID_QUANTITY", 0.0)
    else
      var requested := i.quantity.value;
      if i.mode != "paper" then Refused("REAL_MONEY_FORBIDDEN_DURING_SPRINT", requested)
      else if p.killSwitch then Refused("KILL_SWITCH_ACTIVE", requested)
      else if p.universeCheck && Upper(i.ticker) !in p.universe then Refused("TICKER_NOT_IN_UNIVERSE", requested)
      else if requested <= 0.0 then Refused("INVALID_QUANTITY", requested)
      else if p.maxQuantity as real < requested
      then Decision(true, "SCALED_DOWN_MAX_QUANTITY", requested, p.maxQuantity as real,
        Some(i.(quantity := Some(p.maxQuantity as real))))
      else Decision(true, "APPROVED", requested, requested, Some(i))
  }

  /** `_downgrade_to_veto`. */
  function Downgraded(d: Decision, reason: string): Decision {
    Decision(false, reason, d.requested, 0.0, None)
  }

  /** `_scale_down`. */
  function Scaled(d: Decision, quantity: real, reason: string): Decision {
    Decision(true, reason, d.requested, quantity,
             if d.approvedIntent.Some? then Some(d.approvedIntent.value.(quantity := Some(quantity))) else None)
  }

  function Gated(d: Decision, g: Gate): Decision {
    if d.approved && g.Vetoes? then Downgraded(d, g.reason) else d
  }

  /** `_apply_portfolio_gate`. */
  function Weighed(d: Decision, a: Portfolio): Decision {
    if !d.approved || a.NoOfficer? then d
    else if !a.approved then Downgraded(d, a.reason)
    else if a.quantity < d.quantity then Scaled(d, a.quantity, a.reason)
    else d
  }

  /** The decision published for one intent. */
  function Decided(p: Policy, i: Intent, tier3: Gate, a: Portfolio, rate: Gate): Decision {
    Gated(Weighed(Gated(Check(p, i), tier3), a), rate)
  }

  /** Whether the rate limiter was asked, and so a slot could be consumed. */
  predicate AsksLimiter(p: Policy, i: Intent, tier3: Gate, a: Portfolio, rate: Gate) {
    !rate.Absent? && Weighed(Gated(Check(p, i), tier3), a).approved
  }

  // ----- what the gates promise -----

  /** A decision fit to publish: what it reports and what it carries agree, and neither exceeds the request. */
  ghost predicate Consistent(p: Policy, i: Intent, d: Decision) {
    if d.approved then
      && d.approvedIntent == Some(i.(quantity := Some(d.quantity)))
      && i.quantity == Some(d.requested) && d.quantity <= d.requested && d.quantity <= p.maxQuantity as real
      && i.mode == "paper" && !p.killSwitch && (p.universeCheck ==> Upper(i.ticker) in p.universe)
    else d.quantity == 0.0 && d.approvedIntent.None?
  }

  /**
   Whatever the gates answer: an approval carries the intent itself at exactly the reported quantity, never more
   than was asked for nor than the policy's cap; a veto carries nothing. No gate turns a veto into an approval.
   */
  lemma {:induction false} GatesOnlyTighten(p: Policy, i: Intent, tier3: Gate, a: Portfolio, rate: Gate)
    ensures Consistent(p, i, Decided(p, i, tier3, a, rate))
    ensures Decided(p, i, tier3, a, rate).approved ==> Check(p, i).approved
    ensures Decided(p, i, tier3, a, rate).quantity <= Check(p, i).quantity || !Decided(p, i, tier3, a, rate).approved
  {
    hide Upper;
  }

  /** An intent is approved exactly when the policy approves it and no configured gate vetoes it. */
  lemma {:induction false} ApprovedExactly(p: Policy, i: Intent, tier3: Gate, a: Portfolio, rate: Gate)
    ensures Decided(p, i, tier3, a, rate).approved
            <==> Check(p, i).approved && !tier3.Vetoes? && (a.NoOfficer? || a.approved) && !rate.Vetoes?
  {
    hide Upper, Check;
  }

  function Lesser(x: real, y: real): real {
    if x <= y then x else y
  }

  /** What the policy asks of an intent. */
  predicate Permitted(p: Policy, i: Intent) {
    && i.quantity.Some? && i.quantity.value > 0.0
    && i.mode == "paper" && !p.killSwitch && (p.universeCheck ==> Upper(i.ticker) in p.universe)
  }

  /**
   The whole decision, on the policy, the intent and the gates' answers: an order goes out exactly when the policy
   permits it and no gate vetoes it, for the least of what was asked for, the policy's cap and the officer's size;
   otherwise the reason is that of the first that refuses, in the order policy, Tier 3, officer, limiter.
   */
  lemma {:induction false} DecidedExactly(p: Policy, i: Intent, tier3: Gate, a: Portfolio, rate: Gate)
    ensures var d, free := Decided(p, i, tier3, a, rate), Permitted(p, i);
            && (d.approved <==> free && !tier3.Vetoes? && (a.NoOfficer? || a.approved) && !rate.Vetoes?)
            && (d.approved ==>
                  var capped := Lesser(i.quantity.value, p.maxQuantity as real);
                  && d.quantity == (if a.NoOfficer? then capped else Lesser(capped, a.quantity))
                  && d.reason == (if a.Assessed? && a.quantity < capped then a.reason
                                  else if p.maxQuantity as real < i.quantity.value then "SCALED_DOWN_MAX_QUANTITY"
                                  else "APPROVED"))
            && (free && tier3.Vetoes? ==> d.reason == tier3.reason)
            && (free && !tier3.Vetoes? && a.Assessed? && !a.approved ==> d.reason == a.reason)
            && (free && !tier3.Vetoes? && (a.NoOfficer? || a.approved) && rate.Vetoes? ==> d.reason == rate.reason)
            && d.requested == if i.quantity.Some? then i.quantity.value else 0.0
  {
    hide Upper;
  }

  /** The policy names its first objection: not a number, the mode, the kill switch, the universe, the size. */
  lemma {:induction false} ObjectionsInOrder(p: Policy, i: Intent, tier3: Gate, a: Portfolio, rate: Gate)
    requires !Permitted(p, i)
    ensures var reason := Decided(p, i, tier3, a, rate).reason;
            && (reason == "REAL_MONEY_FORBIDDEN_DURING_SPRINT" <==> i.quantity.Some? && i.mode != "paper")
            && (reason == "KILL_SWITCH_ACTIVE" <==> i.quantity.Some? && i.mode == "paper" && p.killSwitch)
            && (reason == "TICKER_NOT_IN_UNIVERSE"
                <==> i.quantity.Some? && i.mode == "paper" && !p.killSwitch && p.universeCheck
                     && Upper(i.ticker) !in p.universe)
            && (reason == "INVALID_QUANTITY"
                <==> i.quantity.None? || (i.mode == "paper" && !p.killSwitch && i.quantity.value <= 0.0
                                          && (p.universeCheck ==> Upper(i.ticker) in p.universe)))
  {
    hide Upper;
    var reason := Decided(p, i, tier3, a, rate).reason;
    assert reason == Check(p, i).reason;
    assert |"REAL_MONEY_FORBIDDEN_DURING_SPRINT"| == 34 && |"KILL_SWITCH_ACTIVE"| == 18
           && |"TICKER_NOT_IN_UNIVERSE"| == 22 && |"INVALID_QUANTITY"| == 16;
  }

  /**
   The limiter is asked exactly for an order that nothing but the limiter can still refuse. That the order is then
   sent takes a publish that succeeds as well (see IntentRetry).
   */
  lemma {:induction false} SlotsGoToOrders(p: Policy, i: Intent, tier3: Gate, a: Portfolio, rate: Gate)
    requires !rate.Absent?
    ensures AsksLimiter(p, i, tier3, a, rate) <==> Decided(p, i, tier3, a, Passes).approved
    ensures AsksLimiter(p, i, tier3, a, rate) ==> (Decided(p, i, tier3, a, rate).approved <==> rate.Passes?)
  {
    hide Upper, Check;
  }

  // ----- the payload -----

  /** The decision payload, rewritten in place by the gates. */
  class DecisionPayload {
    const requested: real
    var approved: bool
    var reason: string
    var quantity: real
    var approvedIntent: Option<Intent>

    ghost function Abs(): Decision
      reads this
    {
      Decision(approved, reason, requested, quantity, approvedIntent)
    }

    constructor (p: Policy, i: Intent)
      ensures Abs() == Check(p, i)
    {
      hide Upper;
      var d := Check(p, i);
      requested, approved, reason := d.requested, d.approved, d.reason;
      quantity, approvedIntent := d.quantity, d.approvedIntent;
    }

    method DowngradeToVeto(reasonCode: string)
      modifies this
      ensures Abs() == Downgraded(old(Abs()), reasonCode)
    {
      approved, reason, quantity, approvedIntent := false, reasonCode, 0.0, None;
    }

    method ScaleDown(size: real, reasonCode: string)
      modifies this
      ensures Abs() == Scaled(old(Abs()), size, reasonCode)
    {
      approved, reason, quantity := true, reasonCode, size;
      if approvedIntent.Some? {
        approvedIntent := Some(approvedIntent.value.(quantity := Some(size)));
      }
    }

    method ApplyPortfolioGate(a: Portfolio)
      requires approved && a.Assessed?
      modifies this
      ensures Abs() == Weighed(old(Abs()), a)
    {
      if !a.approved {
        DowngradeToVeto(a.reason);
        return;
      }
      if a.quantity < quantity {
        ScaleDown(a.quantity, a.reason);
      }
    }
  }

  /** `process_intent_event` up to publishing; `asked` says whether the limiter's key was claimed. */
  method ProcessIntent(p: Policy, i: Intent, tier3: Gate, a: Portfolio, rate: Gate)
    returns (payload: DecisionPayload, asked: bool)
    ensures fresh(payload) && payload.Abs() == Decided(p, i, tier3, a, rate)
    ensures asked == AsksLimiter(p, i, tier3, a, rate)
  {
    hide Check;
    payload := new DecisionPayload(p, i);
    asked := false;
    if payload.approved && tier3.Vetoes? {
      payload.DowngradeToVeto(tier3.reason);
    }
    if payload.approved && a.Assessed? {
      payload.ApplyPortfolioGate(a);
    }
    if payload.approved && !rate.Absent? {
      asked := true;
      if rate.Vetoes? {
        payload.DowngradeToVeto(rate.reason);
      }
    }
  }
}
