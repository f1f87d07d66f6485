/**
 The shadow forward test: write-once decisions, settled later from the stored weights
 (src/shrap/research/shadow_ledger.py). Money is `real`; a panel is the list of its bars.
 */
module ShadowLedger {
  import opened Wrappers

  type Ticker = string
  type Date = int
  type Weights = map<Ticker, real>

  /** One session of the panel. */
  datatype Bar = Bar(date: Date, close: Ticker -> real, volume: Ticker -> real, live: Ticker -> bool)

  type Panel = seq<Bar>

  /** A strategy signal: its weights from the bars up to a close. */
  datatype Strategy = Strategy(warmup: int, signal: Panel -> Weights)

  datatype CostModel = CostModel(trade: (real, real) -> real, borrow: real -> real, advWindow: int)

  /** What one pass is given: `builds` is false when the factory raises. */
  datatype Enrolment = Enrolment(builds: bool, tickers: seq<Ticker>, strategy: Strategy, benchmark: Strategy,
                                 costs: CostModel)

  datatype Period = Period(net: real, gross: real, cost: real)

  datatype Settlement = Settlement(nextSession: Date, period: Period, benchmark: real)

  /** A row of `research.shadow_ledger`, keyed by its session. */
  datatype Row = Row(weights: Weights, benchmark: Weights, settled: Option<Settlement>)

  type Table = map<Date, Row>

  function Value(w: Weights, t: Ticker): real {
    if t in w then w[t] else 0.0
  }

  /** `_nonzero_json`, read back. */
  function NonZero(w: Weights): Weights {
    map t | t in w && w[t] != 0.0 :: w[t]
  }

  /** `decide`. */
  function Decide(s: Strategy, tickers: seq<Ticker>, panel: Panel): Option<Weights> {
    if |panel| < (if s.warmup > 1 then s.warmup else 1) then None
    else
      var raw := s.signal(panel);
      Some(map t | t in tickers :: Value(raw, t))
  }

  // ----- one period -----

  /** Dollar volume and count of the live bars in `panel[lo..hi]`. */
  function DollarSum(panel: Panel, t: Ticker, lo: nat, hi: nat): real
    requires lo <= hi <= |panel|
  {
    if lo == hi then 0.0
    else DollarSum(panel, t, lo, hi - 1)
         + if panel[hi - 1].live(t) then panel[hi - 1].close(t) * panel[hi - 1].volume(t) else 0.0
  }

  function LiveCount(panel: Panel, t: Ticker, lo: nat, hi: nat): nat
    requires lo <= hi <= |panel|
  {
    if lo == hi then 0 else LiveCount(panel, t, lo, hi - 1) + if panel[hi - 1].live(t) then 1 else 0
  }

  /** `_adv_dollar_series(panel, window)[t][i]`: the trailing mean over the last `window` bars. */
  function Adv(panel: Panel, t: Ticker, i: nat, window: int): real
    requires i < |panel|
  {
    var lo := if window <= 0 then i + 1 else if i + 1 < window then 0 else i + 1 - window;
    if LiveCount(panel, t, lo, i + 1) == 0 then 0.0
    else DollarSum(panel, t, lo, i + 1) / LiveCount(panel, t, lo, i + 1) as real
  }

  /** The weight of `t` that trades at both ends of period `i`. */
  function Held(panel: Panel, w: Weights, i: nat, t: Ticker): real
    requires i + 1 < |panel|
  {
    if panel[i].live(t) && panel[i + 1].live(t) then Value(w, t) else 0.0
  }

  function HeldBefore(panel: Panel, previous: Weights, i: nat, t: Ticker): real
    requires i + 1 < |panel|
  {
    if previous != map[] && i >= 1 then Held(panel, previous, i - 1, t) else 0.0
  }

  const TradeEps := 0.000000000001

  function CostOf(panel: Panel, i: nat, w: Weights, previous: Weights, c: CostModel, t: Ticker): real
    requires i + 1 < |panel|
  {
    var now, before := Held(panel, w, i, t), HeldBefore(panel, previous, i, t);
    (if now - before > TradeEps || before - now > TradeEps
     then c.trade(now - before, Adv(panel, t, i, c.advWindow)) else 0.0)
    + c.borrow(now)
  }

  function GainOf(panel: Panel, i: nat, w: Weights, t: Ticker): real
    requires i + 1 < |panel|
  {
    var now, start := Held(panel, w, i, t), panel[i].close(t);
    if now == 0.0 || start == 0.0 then 0.0 else now * (panel[i + 1].close(t) / start - 1.0)
  }

  function Earned(panel: Panel, i: nat, w: Weights, previous: Weights, c: CostModel, tickers: seq<Ticker>): (r: Period)
    requires i + 1 < |panel|
    ensures r.net == r.gross - r.cost
    decreases |tickers|
  {
    if tickers == [] then Period(0.0, 0.0, 0.0)
    else
      var before, t := Earned(panel, i, w, previous, c, tickers[..|tickers| - 1]), tickers[|tickers| - 1];
      var gross, cost := before.gross + GainOf(panel, i, w, t), before.cost + CostOf(panel, i, w, previous, c, t);
      Period(gross - cost, gross, cost)
  }

  lemma {:induction false} EarnedStep(panel: Panel, i: nat, w: Weights, previous: Weights, c: CostModel,
                                      tickers: seq<Ticker>, k: nat)
    requires i + 1 < |panel| && k < |tickers|
    ensures var before, after :=
      Earned(panel, i, w, previous, c, tickers[..k]), Earned(panel, i, w, previous, c, tickers[..k + 1]);
            var gross, cost := before.gross + GainOf(panel, i, w, tickers[k]),
                               before.cost + CostOf(panel, i, w, previous, c, tickers[k]);
            after == Period(gross - cost, gross, cost)
  {
    hide GainOf, CostOf;
    assert tickers[..k + 1][..k] == tickers[..k];
  }

  lemma {:induction false} EarnedNothing(panel: Panel, i: nat, w: Weights, previous: Weights, c: CostModel,
                                         tickers: seq<Ticker>)
    requires i + 1 < |panel|
    ensures Earned(panel, i, w, previous, c, tickers[..0]) == Period(0.0, 0.0, 0.0)
  {
  }

  /** `settle_period`. */
  method SettlePeriod(panel: Panel, i: nat, w: Weights, previous: Weights, c: CostModel, tickers: seq<Ticker>)
    returns (r: Period)
    requires i + 1 < |panel|
    ensures r == Earned(panel, i, w, previous, c, tickers)
  {
    hide Earned, Adv, Held, HeldBefore, Value;
    var gross, cost := 0.0, 0.0;
    var k := 0;
    EarnedNothing(panel, i, w, previous, c, tickers);
    while k < |tickers|
      invariant 0 <= k <= |tickers|
      invariant Earned(panel, i, w, previous, c, tickers[..k]) == Period(gross - cost, gross, cost)
    {
      var t := tickers[k];
      ghost var cost0, gross0 := cost, gross;
      EarnedStep(panel, i, w, previous, c, tickers, k);
      var now, before := Held(panel, w, i, t), HeldBefore(panel, previous, i, t);
      if now - before > TradeEps || before - now > TradeEps {
        cost := cost + c.trade(now - before, Adv(panel, t, i, c.advWindow));
      }
      cost := cost + c.borrow(now);
      if now != 0.0 && panel[i].close(t) != 0.0 {
        gross := gross + now * (panel[i + 1].close(t) / panel[i].close(t) - 1.0);
      }
      assert cost == cost0 + CostOf(panel, i, w, previous, c, t) && gross == gross0 + GainOf(panel, i, w, t);
      k := k + 1;
    }
    assert tickers[..k] == tickers;
    r := Period(gross - cost, gross, cost);
  }

  // ----- what a settlement means -----

  /** The name has a price at both closes of the period. */
  predicate TradesThrough(panel: Panel, i: nat, t: Ticker)
    requires i + 1 < |panel|
  {
    panel[i].live(t) && panel[i + 1].live(t)
  }

  /** What the weights are worth at the first close of the period, as far as they trade through it. */
  function WorthBefore(panel: Panel, i: nat, w: Weights, tickers: seq<Ticker>): real
    requires i + 1 < |panel|
  {
    if tickers == [] then 0.0
    else
      var t := tickers[|tickers| - 1];
      WorthBefore(panel, i, w, tickers[..|tickers| - 1]) + if t in w && TradesThrough(panel, i, t) then w[t] else 0.0
  }

  /** What they are worth at the second; a close of zero cannot grow. */
  function WorthAfter(panel: Panel, i: nat, w: Weights, tickers: seq<Ticker>): real
    requires i + 1 < |panel|
  {
    if tickers == [] then 0.0
    else
      var t := tickers[|tickers| - 1];
      var start, end := panel[i].close(t), panel[i + 1].close(t);
      WorthAfter(panel, i, w, tickers[..|tickers| - 1])
      + if t in w && TradesThrough(panel, i, t) then (if start != 0.0 then w[t] * (end / start) else w[t]) else 0.0
  }

  /** The gross return is exactly what the holdings grew by. */
  lemma {:induction false} GrossIsGrowth(panel: Panel, i: nat, w: Weights, previous: Weights, c: CostModel,
                                         tickers: seq<Ticker>)
    requires i + 1 < |panel|
    ensures WorthAfter(panel, i, w, tickers)
            == WorthBefore(panel, i, w, tickers) + Earned(panel, i, w, previous, c, tickers).gross
    decreases |tickers|
  {
    hide CostOf;
    if tickers != [] {
      GrossIsGrowth(panel, i, w, previous, c, tickers[..|tickers| - 1]);
      var t := tickers[|tickers| - 1];
      var start, end := panel[i].close(t), panel[i + 1].close(t);
      if t in w && start != 0.0 {
        assert w[t] * (end / start - 1.0) == w[t] * (end / start) - w[t];
      }
    }
  }

  /** A name that does not trade through the period earns nothing, whatever its weight. */
  lemma {:induction false} UntradedEarnsNothing(panel: Panel, i: nat, w: Weights, w': Weights, previous: Weights,
                                                c: CostModel, tickers: seq<Ticker>)
    requires i + 1 < |panel|
    requires forall t <- tickers :: TradesThrough(panel, i, t) ==> Value(w, t) == Value(w', t)
    ensures Earned(panel, i, w, previous, c, tickers).gross == Earned(panel, i, w', previous, c, tickers).gross
    decreases |tickers|
  {
    hide CostOf, GainOf, Value, TradesThrough;
    if tickers != [] {
      var before, t := tickers[..|tickers| - 1], tickers[|tickers| - 1];
      assert t in tickers && forall s :: s in before ==> s in tickers;
      SameGain(panel, i, w, w', t);
      UntradedEarnsNothing(panel, i, w, w', previous, c, before);
    }
  }

  lemma {:induction false} SameGain(panel: Panel, i: nat, w: Weights, w': Weights, t: Ticker)
    requires i + 1 < |panel| && (TradesThrough(panel, i, t) ==> Value(w, t) == Value(w', t))
    ensures GainOf(panel, i, w, t) == GainOf(panel, i, w', t)
  {
    hide Value;
    assert Held(panel, w, i, t) == Held(panel, w', i, t);
  }

  /** Settling two lists of names adds up. */
  lemma {:induction false} EarnedAdds(panel: Panel, i: nat, w: Weights, previous: Weights, c: CostModel, a: seq<Ticker>,
                                      b: seq<Ticker>)
    requires i + 1 < |panel|
    ensures var whole, first, rest := Earned(panel, i, w, previous, c, a + b), Earned(panel, i, w, previous, c, a),
                                      Earned(panel, i, w, previous, c, b);
            whole.gross == first.gross + rest.gross && whole.cost == first.cost + rest.cost
    decreases |b|
  {
    hide GainOf, CostOf;
    if b == [] {
      assert a + b == a;
    } else {
      assert (a + b)[..|a + b| - 1] == a + b[..|b| - 1];
      EarnedAdds(panel, i, w, previous, c, a, b[..|b| - 1]);
    }
  }

  /**
   One name costs its trade, from what traded through the period before under the previous weights to what trades
   through this one under the new, unless that is no change, and its borrow once. Into the first period, and from
   nothing recorded, the trade is the whole position.
   */
  lemma {:induction false} CostOfOneName(panel: Panel, i: nat, w: Weights, previous: Weights, c: CostModel, t: Ticker)
    requires i + 1 < |panel|
    ensures var now := if t in w && TradesThrough(panel, i, t) then w[t] else 0.0;
            var before := if i >= 1 && t in previous && TradesThrough(panel, i - 1, t) then previous[t] else 0.0;
            var change := now - before;
            Earned(panel, i, w, previous, c, [t]).cost
            == (if change > TradeEps || -change > TradeEps then c.trade(change, Adv(panel, t, i, c.advWindow)) else 0.0)
               + c.borrow(now)
  {
    hide Adv;
    assert [t][..0] == [];
    assert Earned(panel, i, w, previous, c, []) == Period(0.0, 0.0, 0.0);
  }

  /** The borrow on what is held through the period, each name once. */
  function Borrowed(panel: Panel, i: nat, w: Weights, c: CostModel, tickers: seq<Ticker>): real
    requires i + 1 < |panel|
  {
    if tickers == [] then 0.0
    else
      var t := tickers[|tickers| - 1];
      Borrowed(panel, i, w, c, tickers[..|tickers| - 1])
      + c.borrow(if t in w && TradesThrough(panel, i, t) then w[t] else 0.0)
  }

  /** Holding on through two periods costs borrow and no trade. */
  lemma {:induction false} HoldingOnTradesNothing(panel: Panel, i: nat, w: Weights, c: CostModel, tickers: seq<Ticker>)
    requires i >= 1 && i + 1 < |panel|
    requires forall t <- tickers :: TradesThrough(panel, i - 1, t) && TradesThrough(panel, i, t)
    ensures Earned(panel, i, w, w, c, tickers).cost == Borrowed(panel, i, w, c, tickers)
    decreases |tickers|
  {
    hide GainOf, Adv;
    if tickers != [] {
      var before, t := tickers[..|tickers| - 1], tickers[|tickers| - 1];
      assert t in tickers && forall s :: s in before ==> s in tickers;
      HoldingOnTradesNothing(panel, i, w, c, before);
    }
  }

  /** The bars the trailing window of bar `i` holds. */
  predicate InWindow(i: nat, window: int, k: int) {
    0 <= k <= i && i - window < k
  }

  /** The volume a trade is measured against: the mean dollar volume of the live bars of the trailing window. */
  lemma {:induction false} AdvIsMean(panel: Panel, t: Ticker, i: nat, window: int, dollars: real)
    requires i < |panel|
    requires forall k :: InWindow(i, window, k) && panel[k].live(t)
               ==> panel[k].close(t) * panel[k].volume(t) == dollars
    ensures Adv(panel, t, i, window)
            == if exists k :: InWindow(i, window, k) && panel[k].live(t) then dollars else 0.0
  {
    hide Adv;
    if k :| InWindow(i, window, k) && panel[k].live(t) {
      AdvOfLive(panel, t, i, window, dollars, k);
    } else {
      AdvOfNone(panel, t, i, window);
    }
  }

  function FirstBar(i: nat, window: int): (lo: nat)
    ensures lo <= i + 1 && forall k :: InWindow(i, window, k) <==> lo <= k < i + 1
  {
    if window <= 0 then i + 1 else if i + 1 < window then 0 else i + 1 - window
  }

  lemma {:induction false} AdvOfLive(panel: Panel, t: Ticker, i: nat, window: int, dollars: real, k: nat)
    requires i < |panel| && InWindow(i, window, k) && panel[k].live(t)
    requires forall k :: InWindow(i, window, k) && panel[k].live(t)
               ==> panel[k].close(t) * panel[k].volume(t) == dollars
    ensures Adv(panel, t, i, window) == dollars
  {
    hide DollarSum, LiveCount, Adv;
    var lo := FirstBar(i, window);
    EvenSum(panel, t, lo, i + 1, dollars);
    AdvOverBars(panel, t, i, window);
    Divided(LiveCount(panel, t, lo, i + 1) as real, dollars);
  }

  lemma {:induction false} AdvOfNone(panel: Panel, t: Ticker, i: nat, window: int)
    requires i < |panel| && forall k :: InWindow(i, window, k) ==> !panel[k].live(t)
    ensures Adv(panel, t, i, window) == 0.0
  {
    hide DollarSum, LiveCount, Adv;
    EvenSum(panel, t, FirstBar(i, window), i + 1, 0.0);
    AdvOverBars(panel, t, i, window);
  }

  lemma {:induction false} AdvOverBars(panel: Panel, t: Ticker, i: nat, window: int)
    requires i < |panel|
    ensures var n, lo := LiveCount(panel, t, FirstBar(i, window), i + 1), FirstBar(i, window);
            Adv(panel, t, i, window) == if n == 0 then 0.0 else DollarSum(panel, t, lo, i + 1) / n as real
  {
    hide DollarSum, LiveCount;
  }

  lemma {:induction false} Divided(n: real, x: real)
    requires n > 0.0
    ensures n * x / n == x
  {
  }

  lemma {:induction false} EvenSum(panel: Panel, t: Ticker, lo: nat, hi: nat, dollars: real)
    requires lo <= hi <= |panel|
    requires forall k :: lo <= k < hi && panel[k].live(t) ==> panel[k].close(t) * panel[k].volume(t) == dollars
    ensures DollarSum(panel, t, lo, hi) == LiveCount(panel, t, lo, hi) as real * dollars
    ensures LiveCount(panel, t, lo, hi) > 0 <==> exists k :: lo <= k < hi && panel[k].live(t)
  {
    if lo < hi {
      EvenSum(panel, t, lo, hi - 1, dollars);
      assert (LiveCount(panel, t, lo, hi - 1) + 1) as real * dollars
             == LiveCount(panel, t, lo, hi - 1) as real * dollars + dollars;
      if panel[hi - 1].live(t) {
        assert lo <= hi - 1 < hi;
      }
    }
  }

  /** A decision exists exactly from the warm-up on, and holds the signal's weight for each ticker, zero by default. */
  lemma {:induction false} DecidesExactly(s: Strategy, tickers: seq<Ticker>, panel: Panel)
    ensures Decide(s, tickers, panel).Some? <==> |panel| >= 1 && |panel| >= s.warmup
    ensures Decide(s, tickers, panel).Some? ==>
              var w := Decide(s, tickers, panel).value;
              (forall t :: t in w <==> t in tickers)
              && forall t :: t in w ==> w[t] == if t in s.signal(panel) then s.signal(panel)[t] else 0.0
  {
  }

  lemma {:induction false} ZerosTicker(panel: Panel, i: nat, w: Weights, previous: Weights, c: CostModel, t: Ticker)
    requires i + 1 < |panel|
    ensures GainOf(panel, i, NonZero(w), t) == GainOf(panel, i, w, t)
    ensures CostOf(panel, i, NonZero(w), NonZero(previous), c, t) == CostOf(panel, i, w, previous, c, t)
  {
    hide Adv;
    ZerosHeld(panel, i, w, t);
    if i >= 1 {
      ZerosHeld(panel, i - 1, previous, t);
    }
    assert HeldBefore(panel, NonZero(previous), i, t) == HeldBefore(panel, previous, i, t);
    ZerosGain(panel, i, w, t);
  }

  lemma {:induction false} ZerosHeld(panel: Panel, i: nat, w: Weights, t: Ticker)
    requires i + 1 < |panel|
    ensures Held(panel, NonZero(w), i, t) == Held(panel, w, i, t)
    ensures w == map[] ==> Held(panel, w, i, t) == 0.0
    ensures NonZero(w) == map[] ==> Held(panel, w, i, t) == 0.0
  {
    assert t in w && w[t] != 0.0 ==> t in NonZero(w);
  }

  lemma {:induction false} ZerosGain(panel: Panel, i: nat, w: Weights, t: Ticker)
    requires i + 1 < |panel|
    ensures GainOf(panel, i, NonZero(w), t) == GainOf(panel, i, w, t)
  {
    hide Held, NonZero;
    ZerosHeld(panel, i, w, t);
  }

  /** Leaving zero weights out of storage changes nothing a settlement computes. */
  lemma {:induction false} ZerosDoNotMatter(panel: Panel, i: nat, w: Weights, previous: Weights, c: CostModel,
                                            tickers: seq<Ticker>)
    requires i + 1 < |panel|
    ensures Earned(panel, i, NonZero(w), NonZero(previous), c, tickers) == Earned(panel, i, w, previous, c, tickers)
    decreases |tickers|
  {
    hide GainOf, CostOf, NonZero;
    if tickers != [] {
      ZerosDoNotMatter(panel, i, w, previous, c, tickers[..|tickers| - 1]);
      ZerosTicker(panel, i, w, previous, c, tickers[|tickers| - 1]);
    }
  }

  lemma {:induction false} TrailingSums(panel: Panel, later: Panel, t: Ticker, lo: nat, hi: nat)
    requires panel <= later && lo <= hi <= |panel|
    ensures DollarSum(later, t, lo, hi) == DollarSum(panel, t, lo, hi)
    ensures LiveCount(later, t, lo, hi) == LiveCount(panel, t, lo, hi)
  {
    if lo < hi {
      TrailingSums(panel, later, t, lo, hi - 1);
    }
  }

  lemma {:induction false} LaterBarsTicker(panel: Panel, later: Panel, i: nat, w: Weights, previous: Weights,
                                           c: CostModel, t: Ticker)
    requires panel <= later && i + 1 < |panel|
    ensures GainOf(later, i, w, t) == GainOf(panel, i, w, t)
    ensures CostOf(later, i, w, previous, c, t) == CostOf(panel, i, w, previous, c, t)
  {
    hide DollarSum, LiveCount, Value;
    assert later[i] == panel[i] && later[i + 1] == panel[i + 1];
    assert i >= 1 ==> later[i - 1] == panel[i - 1];
    assert Held(later, w, i, t) == Held(panel, w, i, t);
    assert HeldBefore(later, previous, i, t) == HeldBefore(panel, previous, i, t);
    LaterBarsAdv(panel, later, i, t, c.advWindow);
    LaterBarsGain(panel, later, i, w, t);
  }

  lemma {:induction false} LaterBarsAdv(panel: Panel, later: Panel, i: nat, t: Ticker, window: int)
    requires panel <= later && i < |panel|
    ensures Adv(later, t, i, window) == Adv(panel, t, i, window)
  {
    TrailingSums(panel, later, t, if window <= 0 then i + 1 else if i + 1 < window then 0 else i + 1 - window, i + 1);
  }

  lemma {:induction false} LaterBarsGain(panel: Panel, later: Panel, i: nat, w: Weights, t: Ticker)
    requires panel <= later && i + 1 < |panel|
    ensures GainOf(later, i, w, t) == GainOf(panel, i, w, t)
  {
    hide Value;
    assert later[i] == panel[i] && later[i + 1] == panel[i + 1];
  }

  /** Bars appended later do not touch an earlier period. */
  lemma {:induction false} LaterBarsDoNotMatter(panel: Panel, later: Panel, i: nat, w: Weights, previous: Weights,
                                                c: CostModel, tickers: seq<Ticker>)
    requires panel <= later && i + 1 < |panel|
    ensures Earned(later, i, w, previous, c, tickers) == Earned(panel, i, w, previous, c, tickers)
    decreases |tickers|
  {
    hide GainOf, CostOf;
    if tickers != [] {
      LaterBarsDoNotMatter(panel, later, i, w, previous, c, tickers[..|tickers| - 1]);
      LaterBarsTicker(panel, later, i, w, previous, c, tickers[|tickers| - 1]);
    }
  }

  // ----- one pass -----

  /** `index_of.get(day)`. */
  function IndexOf(panel: Panel, day: Date): (i: Option<nat>)
    ensures i.Some? ==> i.value < |panel| && panel[i.value].date == day
    ensures i.None? ==> forall k :: 0 <= k < |panel| ==> panel[k].date != day
  {
    if panel == [] then None
    else if panel[|panel| - 1].date == day then Some(|panel| - 1)
    else IndexOf(panel[..|panel| - 1], day)
  }

  datatype Write = Settle(day: Date, settlement: Settlement) | Record(day: Date, weights: Weights, benchmark: Weights)

  /** The SQL guards: a settled row is never settled again, a recorded session never recorded again. */
  function Commit(rows: Table, w: Write): Table {
    match w
    case Settle(day, s) =>
      if day in rows && rows[day].settled.None? then rows[day := rows[day].(settled := Some(s))] else rows
    case Record(day, weights, benchmark) =>
      if day in rows then rows else rows[day := Row(NonZero(weights), NonZero(benchmark), None)]
  }

  function CommitAll(rows: Table, writes: seq<Write>): Table {
    if writes == [] then rows else Commit(CommitAll(rows, writes[..|writes| - 1]), writes[|writes| - 1])
  }

  function PreviousOf(rows: Table, panel: Panel, i: nat): Row
    requires i < |panel|
  {
    if i >= 1 && panel[i - 1].date in rows then rows[panel[i - 1].date] else Row(map[], map[], None)
  }

  function SettlementOf(e: Enrolment, rows: Table, panel: Panel, day: Date, i: nat): Settlement
    requires day in rows && i + 1 < |panel|
  {
    var previous := PreviousOf(rows, panel, i);
    Settlement(panel[i + 1].date,
               Earned(panel, i, rows[day].weights, previous.weights, e.costs, e.tickers),
               Earned(panel, i, rows[day].benchmark, previous.benchmark, e.costs, e.tickers).net)
  }

  /** A stored row is settled once the panel has the close after it. */
  predicate Settleable(rows: Table, panel: Panel, day: Date) {
    && day in rows && rows[day].settled.None?
    && IndexOf(panel, day).Some? && IndexOf(panel, day).value + 1 < |panel|
  }

  function SettleWrites(e: Enrolment, rows: Table, panel: Panel, order: seq<Date>): seq<Write> {
    if order == [] then []
    else
      var before, day := SettleWrites(e, rows, panel, order[..|order| - 1]), order[|order| - 1];
      if Settleable(rows, panel, day)
      then before + [Settle(day, SettlementOf(e, rows, panel, day, IndexOf(panel, day).value))] else before
  }

  function DecideWrites(e: Enrolment, rows: Table, panel: Panel): seq<Write>
    requires panel != []
  {
    var latest := panel[|panel| - 1].date;
    var weights := Decide(e.strategy, e.tickers, panel);
    if latest in rows || weights.None? then []
    else
      var benchmark := Decide(e.benchmark, e.tickers, panel);
      [Record(latest, weights.value, if benchmark.Some? then benchmark.value else map[])]
  }

  /** Everything one uninterrupted pass writes, in order; `order` lists the sessions the query returned. */
  function Writes(e: Enrolment, rows: Table, panel: Panel, order: seq<Date>): seq<Write> {
    if !e.builds || |panel| < 2 then [] else SettleWrites(e, rows, panel, order) + DecideWrites(e, rows, panel)
  }

  function Cut(writes: seq<Write>, cut: nat): seq<Write> {
    if cut < |writes| then writes[..cut] else writes
  }

  /** A pass stopped after `cut` writes. */
  function Pass(e: Enrolment, rows: Table, panel: Panel, order: seq<Date>, cut: nat): Table {
    CommitAll(rows, Cut(Writes(e, rows, panel, order), cut))
  }

  datatype Visit = Visit(panel: Panel, order: seq<Date>, cut: nat)

  function Run(e: Enrolment, visits: seq<Visit>): Table {
    if visits == [] then map[]
    else
      var last := visits[|visits| - 1];
      Pass(e, Run(e, visits[..|visits| - 1]), last.panel, last.order, last.cut)
  }

  ghost predicate Dated(panel: Panel) {
    forall j, k :: 0 <= j < k < |panel| ==> panel[j].date < panel[k].date
  }

  /** Panels that only grow at their end. */
  ghost predicate Growing(visits: seq<Visit>) {
    && (forall k :: 0 <= k < |visits| ==> Dated(visits[k].panel))
    && (forall k :: 0 < k < |visits| ==> visits[k - 1].panel <= visits[k].panel)
  }

  // ----- what every run keeps -----

  ghost function DecidedAt(e: Enrolment, panel: Panel, i: nat): Option<Weights>
    requires i < |panel|
  {
    Decide(e.strategy, e.tickers, panel[..i + 1])
  }

  ghost function BenchmarkAt(e: Enrolment, panel: Panel, i: nat): Weights
    requires i < |panel|
  {
    var b := Decide(e.benchmark, e.tickers, panel[..i + 1]);
    if b.Some? then b.value else map[]
  }

  /** What was held into period `i`: the decision of the session before it, if that was recorded. */
  ghost function CarriedAt(e: Enrolment, panel: Panel, i: nat, recorded: set<Date>): Weights
    requires i < |panel|
  {
    if i >= 1 && panel[i - 1].date in recorded && DecidedAt(e, panel, i - 1).Some? then DecidedAt(e, panel, i - 1).value
    else map[]
  }

  ghost function BenchmarkCarriedAt(e: Enrolment, panel: Panel, i: nat, recorded: set<Date>): Weights
    requires i < |panel|
  {
    if i >= 1 && panel[i - 1].date in recorded then BenchmarkAt(e, panel, i - 1) else map[]
  }

  /**
   The settlement of session `i`: the period's return on the decisions taken at closes `i` and `i - 1`. It
   depends on the bars and on which sessions were recorded, not on when the settling pass runs.
   */
  ghost function TrueSettlement(e: Enrolment, panel: Panel, i: nat, recorded: set<Date>): Settlement
    requires i + 1 < |panel| && DecidedAt(e, panel, i).Some?
  {
    Settlement(panel[i + 1].date,
               Earned(panel, i, DecidedAt(e, panel, i).value, CarriedAt(e, panel, i, recorded), e.costs, e.tickers),
               Earned(panel, i, BenchmarkAt(e, panel, i), BenchmarkCarriedAt(e, panel, i, recorded), e.costs,
                      e.tickers).net)
  }

  /** Row `i` of the panel, if recorded, holds that session's own decision, and its true settlement if settled. */
  ghost predicate RowHolds(e: Enrolment, rows: Table, panel: Panel, i: nat)
    requires i < |panel|
  {
    var day := panel[i].date;
    day in rows ==>
      && DecidedAt(e, panel, i).Some?
      && rows[day].weights == NonZero(DecidedAt(e, panel, i).value)
      && rows[day].benchmark == NonZero(BenchmarkAt(e, panel, i))
      && (rows[day].settled.Some? ==>
            i + 1 < |panel| && rows[day].settled.value == TrueSettlement(e, panel, i, rows.Keys))
  }

  ghost predicate Inv(e: Enrolment, rows: Table, panel: Panel) {
    && (forall day :: day in rows ==> IndexOf(panel, day).Some?)
    && (forall i :: 0 <= i < |panel| ==> RowHolds(e, rows, panel, i))
  }

  lemma {:induction false} PrefixDecision(e: Enrolment, panel: Panel, later: Panel, i: nat)
    requires panel <= later && i < |panel|
    ensures DecidedAt(e, later, i) == DecidedAt(e, panel, i) && BenchmarkAt(e, later, i) == BenchmarkAt(e, panel, i)
  {
    assert later[..i + 1] == panel[..i + 1];
  }

  lemma {:induction false} RowHoldsLater(e: Enrolment, rows: Table, panel: Panel, later: Panel, i: nat)
    requires panel <= later && i < |panel| && RowHolds(e, rows, panel, i)
    ensures RowHolds(e, rows, later, i)
  {
    hide Earned, DecidedAt, BenchmarkAt;
    PrefixDecision(e, panel, later, i);
    if i >= 1 {
      PrefixDecision(e, panel, later, i - 1);
    }
    assert later[i] == panel[i];
    if panel[i].date in rows && rows[panel[i].date].settled.Some? {
      LaterBarsDoNotMatter(panel, later, i, DecidedAt(e, panel, i).value, CarriedAt(e, panel, i, rows.Keys), e.costs,
                           e.tickers);
      LaterBarsDoNotMatter(panel, later, i, BenchmarkAt(e, panel, i), BenchmarkCarriedAt(e, panel, i, rows.Keys),
                           e.costs, e.tickers);
    }
  }

  lemma {:induction false} PanelGrows(e: Enrolment, rows: Table, panel: Panel, later: Panel)
    requires Inv(e, rows, panel) && panel <= later && Dated(later)
    ensures Inv(e, rows, later)
  {
    hide RowHolds;
    forall day | day in rows ensures IndexOf(later, day).Some? {
      var i := IndexOf(panel, day).value;
      assert later[i].date == day;
    }
    forall i | 0 <= i < |later| ensures RowHolds(e, rows, later, i) {
      if i < |panel| {
        RowHoldsLater(e, rows, panel, later, i);
      } else {
        NotRecorded(e, rows, panel, later, i);
      }
    }
  }

  lemma {:induction false} NotRecorded(e: Enrolment, rows: Table, panel: Panel, later: Panel, i: nat)
    requires Inv(e, rows, panel) && panel <= later && Dated(later) && |panel| <= i < |later|
    ensures RowHolds(e, rows, later, i)
  {
    forall j | 0 <= j < |panel| ensures panel[j].date != later[i].date {
      assert later[j] == panel[j];
    }
    assert IndexOf(panel, later[i].date).None?;
  }

  lemma {:induction false} IndexIsUnique(panel: Panel, i: nat)
    requires Dated(panel) && i < |panel|
    ensures IndexOf(panel, panel[i].date) == Some(i)
  {
    forall k | 0 <= k < |panel| && k != i ensures panel[k].date != panel[i].date {
    }
    assert IndexOf(panel, panel[i].date).Some?;
  }

  /** What a pass would store for session `i` is its true settlement. */
  lemma {:induction false} StoredSettlementIsTrue(e: Enrolment, rows: Table, panel: Panel, i: nat)
    requires Inv(e, rows, panel) && i + 1 < |panel| && panel[i].date in rows
    ensures DecidedAt(e, panel, i).Some?
    ensures SettlementOf(e, rows, panel, panel[i].date, i) == TrueSettlement(e, panel, i, rows.Keys)
  {
    hide Earned, DecidedAt, BenchmarkAt, NonZero;
    assert RowHolds(e, rows, panel, i);
    if i >= 1 {
      assert RowHolds(e, rows, panel, i - 1);
    }
    assert NonZero(map[]) == map[] by { EmptyIsEmpty(); }
    ZerosDoNotMatter(panel, i, DecidedAt(e, panel, i).value, CarriedAt(e, panel, i, rows.Keys), e.costs, e.tickers);
    ZerosDoNotMatter(panel, i, BenchmarkAt(e, panel, i), BenchmarkCarriedAt(e, panel, i, rows.Keys), e.costs,
                     e.tickers);
  }

  lemma {:induction false} EmptyIsEmpty()
    ensures NonZero(map[]) == map[]
  {
  }

  /** A write that keeps the invariant over a table whose recorded sessions are `recorded`. */
  ghost predicate TrueWrite(e: Enrolment, panel: Panel, recorded: set<Date>, w: Write) {
    match w
    case Settle(day, s) =>
      && IndexOf(panel, day).Some? && IndexOf(panel, day).value + 1 < |panel|
      && DecidedAt(e, panel, IndexOf(panel, day).value).Some?
      && s == TrueSettlement(e, panel, IndexOf(panel, day).value, recorded)
    case Record(day, weights, benchmark) =>
      && panel != [] && day == panel[|panel| - 1].date && day !in recorded
      && DecidedAt(e, panel, |panel| - 1) == Some(weights) && BenchmarkAt(e, panel, |panel| - 1) == benchmark
  }

  lemma {:induction false} SettleWritesAreTrue(e: Enrolment, rows: Table, panel: Panel, order: seq<Date>)
    requires Inv(e, rows, panel)
    ensures forall w :: w in SettleWrites(e, rows, panel, order) ==> w.Settle? && TrueWrite(e, panel, rows.Keys, w)
  {
    hide TrueSettlement, SettlementOf, DecidedAt;
    if order != [] {
      SettleWritesAreTrue(e, rows, panel, order[..|order| - 1]);
      var day := order[|order| - 1];
      if Settleable(rows, panel, day) {
        StoredSettlementIsTrue(e, rows, panel, IndexOf(panel, day).value);
      }
    }
  }

  lemma {:induction false} CommitSettleKeeps(e: Enrolment, rows: Table, panel: Panel, w: Write)
    requires Inv(e, rows, panel) && Dated(panel) && w.Settle? && TrueWrite(e, panel, rows.Keys, w)
    ensures Inv(e, Commit(rows, w), panel) && Commit(rows, w).Keys == rows.Keys
  {
    hide TrueSettlement, DecidedAt, BenchmarkAt, NonZero;
    var rows' := Commit(rows, w);
    assert rows'.Keys == rows.Keys;
    forall i | 0 <= i < |panel| ensures RowHolds(e, rows', panel, i) {
      assert RowHolds(e, rows, panel, i);
      IndexIsUnique(panel, i);
    }
  }

  lemma {:induction false} CommitSettlesKeep(e: Enrolment, rows: Table, panel: Panel, writes: seq<Write>)
    requires Inv(e, rows, panel) && Dated(panel)
    requires forall w :: w in writes ==> w.Settle? && TrueWrite(e, panel, rows.Keys, w)
    ensures Inv(e, CommitAll(rows, writes), panel) && CommitAll(rows, writes).Keys == rows.Keys
  {
    hide Inv, TrueWrite, Commit;
    if writes != [] {
      CommitSettlesKeep(e, rows, panel, writes[..|writes| - 1]);
      CommitSettleKeeps(e, CommitAll(rows, writes[..|writes| - 1]), panel, writes[|writes| - 1]);
    }
  }

  lemma {:induction false} CommitRecordKeeps(e: Enrolment, rows: Table, panel: Panel, w: Write)
    requires Inv(e, rows, panel) && Dated(panel) && w.Record? && TrueWrite(e, panel, rows.Keys, w)
    ensures Inv(e, Commit(rows, w), panel)
  {
    hide Earned, DecidedAt, BenchmarkAt, NonZero;
    var rows' := Commit(rows, w);
    forall i | 0 <= i < |panel| ensures RowHolds(e, rows', panel, i) {
      assert RowHolds(e, rows, panel, i);
      IndexIsUnique(panel, i);
      IndexIsUnique(panel, |panel| - 1);
      assert i >= 1 ==> (panel[i - 1].date in rows' <==> panel[i - 1].date in rows) by {
        if i >= 1 {
          IndexIsUnique(panel, i - 1);
        }
      }
    }
  }

  lemma {:induction false} PassKeeps(e: Enrolment, rows: Table, panel: Panel, order: seq<Date>, cut: nat)
    requires Inv(e, rows, panel) && Dated(panel)
    ensures Inv(e, Pass(e, rows, panel, order, cut), panel)
  {
    hide Inv, TrueWrite, Commit, SettleWrites;
    if e.builds && |panel| >= 2 {
      var settles, decides := SettleWrites(e, rows, panel, order), DecideWrites(e, rows, panel);
      SettleWritesAreTrue(e, rows, panel, order);
      var writes := Cut(settles + decides, cut);
      if |writes| <= |settles| {
        assert forall w :: w in writes ==> w in settles;
        CommitSettlesKeep(e, rows, panel, writes);
      } else {
        assert writes == settles + decides && |decides| == 1;
        CommitSettlesKeep(e, rows, panel, settles);
        assert writes[..|writes| - 1] == settles;
        DecisionIsTrue(e, rows, panel);
        CommitRecordKeeps(e, CommitAll(rows, settles), panel, decides[0]);
      }
    }
  }

  lemma {:induction false} DecisionIsTrue(e: Enrolment, rows: Table, panel: Panel)
    requires panel != [] && DecideWrites(e, rows, panel) != []
    ensures DecideWrites(e, rows, panel)[0].Record? && TrueWrite(e, panel, rows.Keys, DecideWrites(e, rows, panel)[0])
  {
    assert panel[..|panel|] == panel;
  }

  lemma {:induction false} RunKeeps(e: Enrolment, visits: seq<Visit>)
    requires Growing(visits) && visits != []
    ensures Inv(e, Run(e, visits), visits[|visits| - 1].panel)
  {
    hide Inv, Pass;
    var before, last := visits[..|visits| - 1], visits[|visits| - 1];
    if before == [] {
      EmptyTableHolds(e, last.panel);
    } else {
      RunKeeps(e, before);
      PanelGrows(e, Run(e, before), before[|before| - 1].panel, last.panel);
    }
    PassKeeps(e, Run(e, before), last.panel, last.order, last.cut);
  }

  lemma {:induction false} EmptyTableHolds(e: Enrolment, panel: Panel)
    ensures Inv(e, map[], panel)
  {
  }

  /**
   After any run of passes, interrupted anywhere, on a panel that only grows: every row belongs to one session
   of the panel, its weights are the strategy's decision on the bars up to that close, and a settled row holds
   the true settlement of its period, which does not mention when the settling pass ran.
   */
  lemma {:induction false} LedgerContract(e: Enrolment, visits: seq<Visit>, day: Date)
    requires Growing(visits) && visits != [] && day in Run(e, visits)
    ensures var rows, panel := Run(e, visits), visits[|visits| - 1].panel;
            && IndexOf(panel, day).Some?
            && var i := IndexOf(panel, day).value;
               var decided := Decide(e.strategy, e.tickers, panel[..i + 1]);
               && decided.Some? && rows[day].weights == NonZero(decided.value)
               && (rows[day].settled.Some? ==>
                     i + 1 < |panel| && rows[day].settled.value == TrueSettlement(e, panel, i, rows.Keys))
  {
    RunKeeps(e, visits);
    var panel := visits[|visits| - 1].panel;
    assert RowHolds(e, Run(e, visits), panel, IndexOf(panel, day).value);
  }

  /**
   However two runs were scheduled, what both settled for a session is the same, as long as both recorded the session
   before it or neither did: its turnover is measured from that row.
   */
  lemma {:induction false} DelayDoesNotMatter(e: Enrolment, early: seq<Visit>, late: seq<Visit>, day: Date)
    requires Growing(early) && Growing(late) && early != [] && late != []
    requires early[|early| - 1].panel <= late[|late| - 1].panel
    requires day in Run(e, early) && day in Run(e, late)
    requires var later := late[|late| - 1].panel;
             forall i :: 0 < i < |later| && later[i].date == day ==>
               (later[i - 1].date in Run(e, early) <==> later[i - 1].date in Run(e, late))
    requires Run(e, early)[day].settled.Some? && Run(e, late)[day].settled.Some?
    ensures Run(e, early)[day] == Run(e, late)[day]
  {
    hide Run, NonZero, DecidedAt, BenchmarkAt;
    RunKeeps(e, early);
    RunKeeps(e, late);
    var panel, later := early[|early| - 1].panel, late[|late| - 1].panel;
    PanelGrows(e, Run(e, early), panel, later);
    var i := IndexOf(later, day).value;
    assert RowHolds(e, Run(e, early), later, i) && RowHolds(e, Run(e, late), later, i);
  }

  // ----- nothing stored ever changes -----

  /** Rows stay, with their weights, and a settlement once there stays. */
  ghost predicate Preserves(rows: Table, rows': Table) {
    forall day :: day in rows ==>
      && day in rows' && rows'[day].weights == rows[day].weights && rows'[day].benchmark == rows[day].benchmark
      && (rows[day].settled.Some? ==> rows'[day].settled == rows[day].settled)
  }

  lemma {:induction false} CommitPreserves(rows: Table, writes: seq<Write>)
    ensures Preserves(rows, CommitAll(rows, writes))
  {
    if writes != [] {
      CommitPreserves(rows, writes[..|writes| - 1]);
    }
  }

  /** Any later visits, even on revised panels, leave every stored decision and settlement as it was. */
  lemma {:induction false} StoredRowsNeverChange(e: Enrolment, visits: seq<Visit>, more: seq<Visit>)
    ensures Preserves(Run(e, visits), Run(e, visits + more))
    decreases |more|
  {
    hide NonZero, CommitAll, Writes;
    if more == [] {
      assert visits + more == visits;
    } else {
      var all := visits + more;
      assert all[..|all| - 1] == visits + more[..|more| - 1];
      StoredRowsNeverChange(e, visits, more[..|more| - 1]);
      var last := all[|all| - 1];
      CommitPreserves(Run(e, all[..|all| - 1]),
                      Cut(Writes(e, Run(e, all[..|all| - 1]), last.panel, last.order), last.cut));
    }
  }

  // ----- a second pass -----

  lemma {:induction false} CommitsSettle(e: Enrolment, rows: Table, panel: Panel, order: seq<Date>)
    ensures var rows' := CommitAll(rows, SettleWrites(e, rows, panel, order));
            && rows'.Keys == rows.Keys
            && forall day :: day in order ==> !Settleable(rows', panel, day)
  {
    hide SettlementOf, IndexOf, CommitAll;
    if order == [] {
      NoWrites(rows);
    } else {
      var early, day := order[..|order| - 1], order[|order| - 1];
      CommitsSettle(e, rows, panel, early);
      var before := SettleWrites(e, rows, panel, early);
      CommitPreserves(rows, before);
      if Settleable(rows, panel, day) {
        OneMoreWrite(rows, before, Settle(day, SettlementOf(e, rows, panel, day, IndexOf(panel, day).value)));
      }
      assert order == early + [day];
    }
  }

  lemma {:induction false} NothingToSettle(e: Enrolment, rows: Table, panel: Panel, order: seq<Date>)
    requires forall day :: day in rows ==> !Settleable(rows, panel, day)
    ensures SettleWrites(e, rows, panel, order) == []
  {
    if order != [] {
      NothingToSettle(e, rows, panel, order[..|order| - 1]);
    }
  }

  lemma {:induction false} RecordedIsNotSettleable(e: Enrolment, settled: Table, panel: Panel, w: Write)
    requires panel != [] && w.Record? && w.day == panel[|panel| - 1].date
    requires forall day :: day in settled ==> !Settleable(settled, panel, day)
    ensures forall day :: day in Commit(settled, w) ==> !Settleable(Commit(settled, w), panel, day)
  {
    hide NonZero;
    assert IndexOf(panel, w.day) == Some(|panel| - 1);
  }

  /** After an uninterrupted pass, another on the same panel writes nothing. */
  lemma {:induction false} SecondPassIsIdle(e: Enrolment, rows: Table, panel: Panel, order: seq<Date>, again: seq<Date>)
    requires forall day :: day in rows ==> day in order
    ensures Writes(e, Pass(e, rows, panel, order, |Writes(e, rows, panel, order)|), panel, again) == []
  {
    hide SettleWrites, Commit, CommitAll, Settleable, Decide, NonZero;
    if e.builds && |panel| >= 2 {
      var settles, decides := SettleWrites(e, rows, panel, order), DecideWrites(e, rows, panel);
      CommitsSettle(e, rows, panel, order);
      var settled := CommitAll(rows, settles);
      var rows' := Pass(e, rows, panel, order, |Writes(e, rows, panel, order)|);
      if decides == [] {
        assert settles + decides == settles;
      } else {
        OneMoreWrite(rows, settles, decides[0]);
        assert settles + decides == settles + [decides[0]];
        RecordedIsNotSettleable(e, settled, panel, decides[0]);
        RecordsItsSession(settled, decides[0]);
      }
      NothingToSettle(e, rows', panel, again);
    }
  }

  /**
   An uninterrupted pass settles every stored session that has a close after it, and records the latest session, if it
   was not, exactly from the warm-up on.
   */
  lemma {:induction false} PassCompletes(e: Enrolment, rows: Table, panel: Panel, order: seq<Date>)
    requires e.builds && |panel| >= 2 && Dated(panel) && forall day :: day in rows ==> day in order
    ensures var rows' := Pass(e, rows, panel, order, |Writes(e, rows, panel, order)|);
            var latest := panel[|panel| - 1].date;
            && (forall i :: 0 <= i < |panel| - 1 && panel[i].date in rows ==>
                  panel[i].date in rows' && rows'[panel[i].date].settled.Some?)
            && (forall day :: day in rows' <==> day in rows || (day == latest && |panel| >= e.strategy.warmup))
  {
    hide SettleWrites, CommitAll, Settleable, Decide, NonZero;
    var settles, decides := SettleWrites(e, rows, panel, order), DecideWrites(e, rows, panel);
    CommitsSettle(e, rows, panel, order);
    DecidesExactly(e.strategy, e.tickers, panel);
    var settled := CommitAll(rows, settles);
    var rows' := Pass(e, rows, panel, order, |Writes(e, rows, panel, order)|);
    if decides == [] {
      assert settles + decides == settles;
    } else {
      OneMoreWrite(rows, settles, decides[0]);
      assert settles + decides == settles + [decides[0]];
    }
    forall i | 0 <= i < |panel| - 1 && panel[i].date in rows
      ensures panel[i].date in rows' && rows'[panel[i].date].settled.Some?
    {
      NotSettleable(settled, panel, i);
    }
  }

  lemma {:induction false} NotSettleable(rows: Table, panel: Panel, i: nat)
    requires Dated(panel) && i + 1 < |panel| && panel[i].date in rows && !Settleable(rows, panel, panel[i].date)
    ensures rows[panel[i].date].settled.Some?
  {
    IndexIsUnique(panel, i);
  }

  lemma {:induction false} RecordsItsSession(rows: Table, w: Write)
    requires w.Record?
    ensures w.day in Commit(rows, w)
  {
  }

  // ----- the store and the pass -----

  /** One strategy's rows of the ledger. */
  class LedgerStore {
    var rows: Table

    constructor ()
      ensures rows == map[]
    {
      rows := map[];
    }

    method Settle(day: Date, s: Settlement)
      modifies this
      ensures rows == Commit(old(rows), Write.Settle(day, s))
    {
      if day in rows && rows[day].settled.None? {
        rows := rows[day := rows[day].(settled := Some(s))];
      }
    }

    method RecordDecision(day: Date, weights: Weights, benchmark: Weights)
      modifies this
      ensures rows == Commit(old(rows), Record(day, weights, benchmark))
    {
      if day !in rows {
        rows := rows[day := Row(NonZero(weights), NonZero(benchmark), None)];
      }
    }
  }

  lemma {:induction false} OneMoreWrite(rows: Table, writes: seq<Write>, w: Write)
    ensures CommitAll(rows, writes + [w]) == Commit(CommitAll(rows, writes), w)
  {
    assert (writes + [w])[..|writes|] == writes;
  }

  /** What the settling loop has written after its first `k` sessions, and what is still to come. */
  lemma {:induction false} SettleWritesSplit(e: Enrolment, rows: Table, panel: Panel, order: seq<Date>, k: nat)
    requires k < |order|
    ensures SettleWrites(e, rows, panel, order[..k + 1])
            == if Settleable(rows, panel, order[k])
               then SettleWrites(e, rows, panel, order[..k])
                    + [Settle(order[k], SettlementOf(e, rows, panel, order[k], IndexOf(panel, order[k]).value))]
               else SettleWrites(e, rows, panel, order[..k])
  {
    assert order[..k + 1][..k] == order[..k];
  }

  lemma {:induction false} SettleWritesPrefix(e: Enrolment, rows: Table, panel: Panel, order: seq<Date>, k: nat)
    requires k <= |order|
    ensures SettleWrites(e, rows, panel, order[..k]) <= SettleWrites(e, rows, panel, order)
    decreases |order| - k
  {
    if k == |order| {
      assert order[..k] == order;
    } else {
      SettleWritesSplit(e, rows, panel, order, k);
      SettleWritesPrefix(e, rows, panel, order, k + 1);
    }
  }

  /** `run_strategy`, stopped after `cut` writes. */
  method RunStrategy(e: Enrolment, panel: Panel, store: LedgerStore, order: seq<Date>, cut: nat)
    modifies store
    ensures store.rows == Pass(e, old(store.rows), panel, order, cut)
  {
    hide Commit, CommitAll, SettleWrites, DecideWrites, IndexOf;
    if !e.builds || |panel| < 2 {
      NoWrites(store.rows);
      return;
    }
    var byDate := store.rows;
    ghost var settles, decides := SettleWrites(e, byDate, panel, order), DecideWrites(e, byDate, panel);
    var done, k := 0, 0;
    NoWrites(byDate);
    NoSettles(e, byDate, panel, order);
    while k < |order|
      invariant 0 <= k <= |order| && done <= cut
      invariant done == |SettleWrites(e, byDate, panel, order[..k])|
      invariant store.rows == CommitAll(byDate, SettleWrites(e, byDate, panel, order[..k]))
    {
      var day := order[k];
      SettleWritesSplit(e, byDate, panel, order, k);
      SettleWritesPrefix(e, byDate, panel, order, k + 1);
      if Settleable(byDate, panel, day) {
        if done == cut {
          SettleWritesPrefix(e, byDate, panel, order, k);
          assert Cut(settles + decides, cut) == SettleWrites(e, byDate, panel, order[..k]);
          return;
        }
        var i := IndexOf(panel, day).value;
        var previous := PreviousOf(byDate, panel, i);
        var result := SettlePeriod(panel, i, byDate[day].weights, previous.weights, e.costs, e.tickers);
        var bench := SettlePeriod(panel, i, byDate[day].benchmark, previous.benchmark, e.costs, e.tickers);
        var s := Settlement(panel[i + 1].date, result, bench.net);
        assert s == SettlementOf(e, byDate, panel, day, i);
        OneMoreWrite(byDate, SettleWrites(e, byDate, panel, order[..k]), Settle(day, s));
        store.Settle(day, s);
        done := done + 1;
      }
      k := k + 1;
    }
    assert order[..k] == order;
    Deciding(e, byDate, panel);
    var latest := panel[|panel| - 1].date;
    var weights := Decide(e.strategy, e.tickers, panel);
    if latest in byDate || weights.None? || done == cut {
      assert Cut(settles + decides, cut) == settles;
      return;
    }
    var benchmark := Decide(e.benchmark, e.tickers, panel);
    OneMoreWrite(byDate, settles, decides[0]);
    assert Cut(settles + decides, cut) == settles + [decides[0]];
    store.RecordDecision(latest, weights.value, if benchmark.Some? then benchmark.value else map[]);
  }

  lemma {:induction false} NoWrites(rows: Table)
    ensures CommitAll(rows, []) == rows
  {
  }

  lemma {:induction false} NoSettles(e: Enrolment, rows: Table, panel: Panel, order: seq<Date>)
    ensures SettleWrites(e, rows, panel, order[..0]) == []
  {
  }

  lemma {:induction false} Deciding(e: Enrolment, rows: Table, panel: Panel)
    requires panel != []
    ensures var latest, weights, benchmark := panel[|panel| - 1].date, Decide(e.strategy, e.tickers, panel),
                                              Decide(e.benchmark, e.tickers, panel);
            DecideWrites(e, rows, panel)
            == if latest in rows || weights.None? then []
               else [Record(latest, weights.value, if benchmark.Some? then benchmark.value else map[])]
  {
  }
}
