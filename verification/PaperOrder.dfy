/**
 Routing an approved risk event to an account and turning it into a broker order:
 `route_for_account` and `build_paper_order` of src/shrap/trading_floor/execution_agent.py.
 */
module PaperOrder {
  import opened Wrappers
  import opened Text
  import opened DecimalText

  /** What `float(intent["quantity"])` makes of the field; a missing field reads as zero. */
  datatype Quantity =
    | Exact(value: Decimal)
    | NaN
    | Infinite(negative: bool)
    | Unreadable            // text float() rejects with ValueError
    | NotConvertible        // null or a container: float() raises TypeError

  datatype Intent = Intent(account: string, mode: string, ticker: string, side: string, quantity: Quantity)

  /** The envelope's inline payload, if it has one. */
  datatype Payload = NoPayload | Payload(approved: bool, intent: Option<Intent>)

  datatype RiskEvent = RiskEvent(id: string, payload: Payload)

  datatype Routing = Mine | Other | Unroutable

  function RouteForAccount(event: RiskEvent, account: string): (r: Routing)
    ensures r.Mine? ==> NamedAccount(event) == account && account != ""
  {
    if NamedAccount(event) == "" then Unroutable
    else if NamedAccount(event) == account then Mine
    else Other
  }

  /** The account an event's intent names, or the empty string. */
  function NamedAccount(event: RiskEvent): string {
    if event.payload.Payload? && event.payload.intent.Some? then Strip(event.payload.intent.value.account) else ""
  }

  /** The flag `process_risk_event` passes on: the venue is asked only when the intent names a symbol. */
  function AskedFlag(event: RiskEvent, answer: bool): bool {
    NamesSymbol(event) && answer
  }

  predicate NamesSymbol(event: RiskEvent) {
    && event.payload.Payload? && event.payload.intent.Some?
    && Upper(Strip(event.payload.intent.value.ticker)) != ""
  }

  /** `symbol`, `qty`, `side` and `client_order_id`; every order is a market order good for the day. */
  datatype Order = Order(symbol: string, qty: string, side: string, clientOrderId: string)

  /** `Invalid` is ValueError, permanent for the event; `Unexpected` is any other exception, retried. */
  datatype BuildError = Invalid | Unexpected

  function BuildPaperOrder(event: RiskEvent, fractionable: bool): (r: Result<Order, BuildError>)
    ensures r.Ok? ==> r.value.clientOrderId == event.id
  {
    if event.payload.NoPayload? || !event.payload.approved || event.payload.intent.None? then Err(Invalid) else
    var intent := event.payload.intent.value;
    var ticker, side := Upper(Strip(intent.ticker)), Lower(Strip(intent.side));
    if intent.mode != "paper" || ticker == "" || side !in {"buy", "sell"} then Err(Invalid) else
    match intent.quantity
    case Unreadable => Err(Invalid)
    case NotConvertible => Err(Unexpected)
    case NaN => if fractionable then Ok(Order(ticker, "NaN", side, event.id)) else Err(Invalid)
    case Infinite(negative) => if negative then Err(Invalid) else Err(Unexpected)
    case Exact(approved) =>
      if approved.units <= 0 then Err(Invalid) else
      var quantity := if fractionable then approved else Decimal(WholeShares(approved), 0);
      if quantity.units <= 0 then Err(Invalid) else
      match FormatQuantity(quantity)
      case Err(_) => Err(Unexpected)
      case Ok(qty) => Ok(Order(ticker, qty, side, event.id))
  }

  /** `nanos` billionths of a share are no more than `d`, and fall short of it by less than `step` billionths. */
  predicate JustUnder(nanos: nat, d: Decimal, step: nat) {
    nanos * Pow10(d.scale) <= d.units * Pow10(9) < (nanos + step) * Pow10(d.scale)
  }

  /** The quantity the event's intent carries. */
  function Asked(event: RiskEvent): Quantity
    requires event.payload.Payload? && event.payload.intent.Some?
  {
    event.payload.intent.value.quantity
  }

  /**
   `qty` is a plain decimal string for `nanos` billionths, just under the approved number; or the approval was no
   number.
   */
  predicate WithinApproval(quantity: Quantity, fractionable: bool, qty: string, nanos: nat) {
    match quantity
    case Exact(approved) =>
      IsPlain(qty) && Denotes(qty, false, nanos) && JustUnder(nanos, approved, if fractionable then 1 else Pow10(9))
    case _ => quantity.NaN? && fractionable && qty == "NaN"
  }

  /**
   The order sent is a plain decimal string that never exceeds the approved quantity: it falls
   short by less than a billionth of a share, or by less than one share when fractions are refused.
   The one exception is NaN, which passes every comparison and is sent as it is where fractions are accepted.
   */
  lemma {:induction false} OrderWithinApproval(event: RiskEvent, fractionable: bool) returns (nanos: nat)
    requires BuildPaperOrder(event, fractionable).Ok?
    ensures WithinApproval(Asked(event), fractionable, BuildPaperOrder(event, fractionable).value.qty, nanos)
  {
    hide FormatQuantity, Denotes, JustUnder, IsPlain, Nanos, WholeShares;
    if Asked(event).NaN? {
      nanos := 0;
    } else if fractionable {
      nanos := FractionWithin(Asked(event).value);
    } else {
      nanos := WholeWithin(Asked(event).value);
    }
  }

  lemma {:induction false} NaNIsNotPlain()
    ensures !IsPlain("NaN") && ReadDecimal("NaN").None?
  {
    assert !IsDigit("NaN"[0]);
    assert IndexOf("NaN", '.') == 3;
  }

  lemma {:induction false} FractionWithin(approved: Decimal) returns (nanos: nat)
    requires approved.units > 0 && FormatQuantity(approved).Ok?
    ensures IsPlain(FormatQuantity(approved).value) && Denotes(FormatQuantity(approved).value, false, nanos)
    ensures JustUnder(nanos, approved, 1)
  {
    hide IsPlain, Denotes, StripZeros;
    nanos := Nanos(approved);
    PlainText(approved);
    ReadsBackTruncated(approved);
    TruncationBounds(approved);
  }

  lemma {:induction false} WholeWithin(approved: Decimal) returns (nanos: nat)
    requires WholeShares(approved) > 0 && FormatQuantity(Decimal(WholeShares(approved), 0)).Ok?
    ensures var text := FormatQuantity(Decimal(WholeShares(approved), 0)).value;
            IsPlain(text) && Denotes(text, false, nanos)
    ensures JustUnder(nanos, approved, Pow10(9))
  {
    hide IsPlain, Denotes, StripZeros;
    var whole := WholeShares(approved);
    nanos := FractionWithin(Decimal(whole, 0));
    WholeNanos(whole, nanos);
    WholeShareBounds(approved);
    ScaleUp(whole, approved.units, Pow10(approved.scale), Pow10(9));
  }

  lemma {:induction false} WholeNanos(whole: nat, nanos: nat)
    requires JustUnder(nanos, Decimal(whole, 0), 1)
    ensures nanos == whole * Pow10(9)
  {
    assert Pow10(0) == 1;
  }

  lemma {:induction false} ScaleUp(whole: nat, units: int, p: nat, k: nat)
    requires whole * p <= units < (whole + 1) * p && k > 0
    ensures whole * k * p <= units * k < (whole * k + k) * p
  {
    assert whole * k * p == (whole * p) * k;
    assert (whole * k + k) * p == ((whole + 1) * p) * k;
  }

  /**
   The fractionable flag changes acceptance exactly for NaN and for a valid sub-share order: refused as permanent
   when the venue, or a failed lookup, says whole shares only; accepted otherwise.
   */
  lemma {:induction false} FlagMattersBelowOneShare(event: RiskEvent)
    requires BuildPaperOrder(event, true).Ok?
    ensures BuildPaperOrder(event, false) == Err(Invalid)
            <==> Asked(event).NaN? || Asked(event).value.units < Pow10(Asked(event).value.scale)
  {
    hide FormatQuantity, WholeShares;
    if Asked(event).Exact? {
      NoWholeShare(Asked(event).value);
    }
  }

  lemma {:induction false} NoWholeShare(approved: Decimal)
    ensures WholeShares(approved) <= 0 <==> approved.units < Pow10(approved.scale)
  {
    var p, whole := Pow10(approved.scale), WholeShares(approved);
    WholeShareBounds(approved);
    assert whole <= 0 ==> (whole + 1) * p <= p;
    assert whole >= 1 ==> whole * p >= p;
  }

  /** An approved paper intent that names a symbol and a side. */
  predicate Tradeable(event: RiskEvent) {
    && event.payload.Payload? && event.payload.approved && event.payload.intent.Some?
    && var i := event.payload.intent.value;
       i.mode == "paper" && NamesSymbol(event) && Lower(Strip(i.side)) in {"buy", "sell"}
  }

  /**
   An event is refused for good exactly when it is not tradeable, its quantity is unreadable or not positive, or it is
   NaN or below one share where the venue takes whole shares only. What is accepted carries the event's own id, symbol
   and side.
   */
  lemma {:induction false} RefusedForGoodExactly(event: RiskEvent, fractionable: bool)
    ensures BuildPaperOrder(event, fractionable) == Err(Invalid)
            <==> !Tradeable(event) || (
                   var q := event.payload.intent.value.quantity;
                   q.Unreadable? || q == Infinite(true) || (q.NaN? && !fractionable)
                   || (q.Exact? && (q.value.units <= 0 || (!fractionable && q.value.units < Pow10(q.value.scale)))))
    ensures BuildPaperOrder(event, fractionable).Ok? ==>
              var order, i := BuildPaperOrder(event, fractionable).value, event.payload.intent.value;
              order.clientOrderId == event.id && order.symbol == Upper(Strip(i.ticker))
              && order.side == Lower(Strip(i.side))
  {
    hide FormatQuantity, WholeShares, Strip, Upper, Lower;
    if Tradeable(event) && event.payload.intent.value.quantity.Exact? {
      NoWholeShare(event.payload.intent.value.quantity.value);
    }
  }

  /** Without a symbol the event is refused, whatever the flag. */
  lemma {:induction false} UnnamedIsInvalid(event: RiskEvent, fractionable: bool)
    requires !NamesSymbol(event)
    ensures BuildPaperOrder(event, fractionable) == Err(Invalid)
  {
    hide Strip, Upper, Lower, FormatQuantity, WholeShares;
  }

  /**
   An order is built exactly for a tradeable event whose quantity is positive, fits the decimal context, and is not
   below one share where the venue takes whole shares only; or is NaN where it takes fractions.
   */
  lemma {:induction false} AcceptedExactly(event: RiskEvent, fractionable: bool)
    ensures BuildPaperOrder(event, fractionable).Ok? <==>
              Tradeable(event) && var q := Asked(event);
              || (q.Exact? && q.value.units > 0 && Nanos(q.value) < CONTEXT_LIMIT
                  && (fractionable || q.value.units >= Pow10(q.value.scale)))
              || (q.NaN? && fractionable)
  {
    hide Strip, Upper, Lower, StripZeros, WholeShares, Nanos;
    if Tradeable(event) && Asked(event).Exact? {
      var approved := Asked(event).value;
      NoWholeShare(approved);
      if approved.units > 0 {
        WholeFits(approved);
      }
    }
  }

  /** The whole-share floor fits the context exactly when the quantity does. */
  lemma {:induction false} WholeFits(approved: Decimal)
    requires approved.units > 0
    ensures Nanos(Decimal(WholeShares(approved), 0)) < CONTEXT_LIMIT <==> Nanos(approved) < CONTEXT_LIMIT
  {
    hide Pow10;
    NinePowers();
    FloorFits(approved.units, Pow10(approved.scale));
  }

  lemma {:induction false} NinePowers()
    ensures Pow10(0) == 1 && Pow10(9) == 1_000_000_000
  {
    assert Pow10(3) == 1_000;
    Pow10Sum(3, 3);
    Pow10Sum(3, 6);
  }

  lemma {:induction false} FloorFits(units: nat, p: nat)
    requires p > 0
    ensures units / p * 1_000_000_000 < CONTEXT_LIMIT <==> units * 1_000_000_000 / p < CONTEXT_LIMIT
  {
    QuotientBelow(units * 1_000_000_000, p, CONTEXT_LIMIT);
    QuotientBelow(units, p, 10_000_000_000_000_000_000);
  }

  lemma {:induction false} QuotientBelow(n: nat, p: nat, bound: nat)
    requires p > 0
    ensures n / p < bound <==> n < bound * p
  {
    assert n == p * (n / p) + n % p;
    if n / p < bound {
      assert p * (n / p + 1) <= p * bound;
    } else {
      assert p * bound <= p * (n / p);
    }
  }

  /** No event is two agents' own, and one that names nobody is unroutable for every agent. */
  lemma {:induction false} OneAgentRoutes(event: RiskEvent, a: string, b: string)
    ensures RouteForAccount(event, a).Mine? && RouteForAccount(event, b).Mine? ==> a == b
    ensures RouteForAccount(event, a).Unroutable? <==> RouteForAccount(event, b).Unroutable?
    ensures RouteForAccount(event, NamedAccount(event)).Mine? <==> NamedAccount(event) != ""
  {
    hide NamedAccount;
  }
}
