/**
 Scoring a live account against equal-weight buy-and-hold (src/shrap/research/live_benchmark.py). Money is `real`;
 a price table is the list of its names' series.
 */
module LiveBenchmark {
  import opened Wrappers
  import opened RealSums

  type Date = int
  type Series = map<Date, real>

  // ----- the benchmark's returns -----

  predicate Priced(s: Series, base: Date, previous: Date, current: Date) {
    base in s && previous in s && current in s && s[base] > 0.0
  }

  /** The names held through one transition. */
  function Held(closes: seq<Series>, base: Date, previous: Date, current: Date): (held: seq<Series>)
    ensures forall k :: 0 <= k < |held| ==> Priced(held[k], base, previous, current)
  {
    if closes == [] then []
    else
      var before, last := Held(closes[..|closes| - 1], base, previous, current), closes[|closes| - 1];
      if Priced(last, base, previous, current) then before + [last] else before
  }

  /** `s[day] / s[base]`, for a name priced on both. */
  function Ratio(s: Series, base: Date, day: Date): real {
    if base in s && day in s && s[base] != 0.0 then s[day] / s[base] else 0.0
  }

  /** The sum of the names' ratios. */
  function Grown(held: seq<Series>, base: Date, day: Date): real {
    if held == [] then 0.0 else Grown(held[..|held| - 1], base, day) + Ratio(held[|held| - 1], base, day)
  }

  /** The return of one transition. */
  function Move(closes: seq<Series>, base: Date, previous: Date, current: Date): real {
    var held := Held(closes, base, previous, current);
    if held == [] then 0.0
    else
      var before, after := Grown(held, base, previous) / |held| as real, Grown(held, base, current) / |held| as real;
      if before > 0.0 then after / before - 1.0 else 0.0
  }

  /** The first `n` transitions' returns. */
  function Moves(closes: seq<Series>, dates: seq<Date>, n: nat): (r: seq<real>)
    requires n < |dates|
    ensures |r| == n
  {
    if n == 0 then [] else Moves(closes, dates, n - 1) + [Move(closes, dates[0], dates[n - 1], dates[n])]
  }

  /** `equal_weight_returns_for_dates`. */
  method EqualWeightReturns(closes: seq<Series>, dates: seq<Date>) returns (moves: seq<real>)
    ensures moves == if |dates| < 2 then [] else Moves(closes, dates, |dates| - 1)
  {
    moves := [];
    if |dates| < 2 {
      return;
    }
    var base, n := dates[0], 0;
    while n < |dates| - 1
      invariant 0 <= n < |dates| && moves == Moves(closes, dates, n)
    {
      var held := Held(closes, base, dates[n], dates[n + 1]);
      if held == [] {
        moves := moves + [0.0];
      } else {
        var before := Grown(held, base, dates[n]) / |held| as real;
        var after := Grown(held, base, dates[n + 1]) / |held| as real;
        moves := moves + [if before > 0.0 then after / before - 1.0 else 0.0];
      }
      n := n + 1;
    }
  }

  /** Compounding the first `n` of some returns. */
  function Compounded(moves: seq<real>): real {
    if moves == [] then 1.0 else Compounded(moves[..|moves| - 1]) * (1.0 + moves[|moves| - 1])
  }

  /** Every name has a positive price on every date. */
  ghost predicate FullyPriced(closes: seq<Series>, dates: seq<Date>) {
    forall k, i :: 0 <= k < |closes| && 0 <= i < |dates| ==> dates[i] in closes[k] && closes[k][dates[i]] > 0.0
  }

  /** The mean of `close(day) / close(base)`. */
  ghost function MeanGrowth(closes: seq<Series>, base: Date, day: Date): real
    requires closes != []
  {
    Grown(closes, base, day) / |closes| as real
  }

  lemma {:induction false} AllHeld(closes: seq<Series>, base: Date, previous: Date, current: Date)
    requires forall k :: 0 <= k < |closes| ==> Priced(closes[k], base, previous, current)
    ensures Held(closes, base, previous, current) == closes
  {
    if closes != [] {
      AllHeld(closes[..|closes| - 1], base, previous, current);
    }
  }

  lemma {:induction false} PositiveQuotient(a: real, b: real)
    requires a > 0.0 && b > 0.0
    ensures a / b > 0.0
  {
  }

  lemma {:induction false} GrownIsPositive(closes: seq<Series>, base: Date, day: Date)
    requires forall k :: 0 <= k < |closes|
               ==> base in closes[k] && day in closes[k] && closes[k][base] > 0.0 && closes[k][day] > 0.0
    ensures closes != [] ==> Grown(closes, base, day) > 0.0
    ensures Grown(closes, base, day) >= 0.0
  {
    if closes != [] {
      GrownIsPositive(closes[..|closes| - 1], base, day);
      PositiveQuotient(closes[|closes| - 1][day], closes[|closes| - 1][base]);
      assert Ratio(closes[|closes| - 1], base, day) > 0.0;
    }
  }

  lemma {:induction false} GrownAtBase(closes: seq<Series>, base: Date)
    requires forall k :: 0 <= k < |closes| ==> base in closes[k] && closes[k][base] > 0.0
    ensures Grown(closes, base, base) == |closes| as real
  {
    if closes != [] {
      GrownAtBase(closes[..|closes| - 1], base);
      SelfQuotient(closes[|closes| - 1][base]);
    }
  }

  lemma {:induction false} SelfQuotient(x: real)
    requires x != 0.0
    ensures x / x == 1.0
  {
  }

  lemma {:induction false} Telescopes(before: real, after: real)
    requires before > 0.0
    ensures before * (1.0 + (after / before - 1.0)) == after
  {
    assert before * (after / before) == after;
  }

  /** With full prices the book is worth something, and a transition's return is the change in its worth. */
  lemma {:induction false} MoveOfFullBook(closes: seq<Series>, dates: seq<Date>, n: nat)
    requires closes != [] && n + 1 < |dates| && FullyPriced(closes, dates)
    ensures MeanGrowth(closes, dates[0], dates[n]) > 0.0
    ensures Move(closes, dates[0], dates[n], dates[n + 1])
            == MeanGrowth(closes, dates[0], dates[n + 1]) / MeanGrowth(closes, dates[0], dates[n]) - 1.0
  {
    hide Grown, Held;
    AllHeld(closes, dates[0], dates[n], dates[n + 1]);
    GrownIsPositive(closes, dates[0], dates[n]);
    PositiveQuotient(Grown(closes, dates[0], dates[n]), |closes| as real);
  }

  lemma {:induction false} FullBookAtBase(closes: seq<Series>, dates: seq<Date>)
    requires closes != [] && dates != [] && FullyPriced(closes, dates)
    ensures MeanGrowth(closes, dates[0], dates[0]) == 1.0
  {
    hide Grown;
    GrownAtBase(closes, dates[0]);
    SelfQuotient(|closes| as real);
  }

  lemma {:induction false} CompoundedSnoc(s: seq<real>, t: seq<real>, x: real)
    requires t == s + [x]
    ensures Compounded(t) == Compounded(s) * (1.0 + x)
  {
    assert t[..|t| - 1] == s;
  }

  lemma {:induction false} BuyAndHoldUpTo(closes: seq<Series>, dates: seq<Date>, n: nat)
    requires closes != [] && n < |dates| && FullyPriced(closes, dates)
    ensures Compounded(Moves(closes, dates, n)) == MeanGrowth(closes, dates[0], dates[n])
  {
    hide Move, MeanGrowth, FullyPriced, Compounded;
    if n == 0 {
      FullBookAtBase(closes, dates);
      NothingCompounded();
    } else {
      BuyAndHoldUpTo(closes, dates, n - 1);
      MoveOfFullBook(closes, dates, n - 1);
      CompoundedSnoc(Moves(closes, dates, n - 1), Moves(closes, dates, n),
                     Move(closes, dates[0], dates[n - 1], dates[n]));
      Telescopes(MeanGrowth(closes, dates[0], dates[n - 1]), MeanGrowth(closes, dates[0], dates[n]));
    }
  }

  lemma {:induction false} NothingCompounded()
    ensures Compounded([]) == 1.0
  {
  }

  /**
   When every name has a positive price on every date, compounding the per-transition returns gives the mean of
   final over base close: the book is bought once and held, not rebalanced.
   */
  lemma {:induction false} BuyAndHold(closes: seq<Series>, dates: seq<Date>)
    requires closes != [] && |dates| >= 2 && FullyPriced(closes, dates)
    ensures Compounded(Moves(closes, dates, |dates| - 1)) == MeanGrowth(closes, dates[0], dates[|dates| - 1])
  {
    BuyAndHoldUpTo(closes, dates, |dates| - 1);
  }

  /**
   Whatever is priced when: through a transition are held exactly the names with a positive base price and a price at
   both ends, and the return is what they grew by together; nothing when there is none, or they were worth nothing.
   */
  lemma {:induction false} MoveExactly(closes: seq<Series>, base: Date, previous: Date, current: Date)
    ensures var held := Held(closes, base, previous, current);
            var before, after := Grown(held, base, previous), Grown(held, base, current);
            && (forall s :: s in held <==> s in closes && base in s && previous in s && current in s && s[base] > 0.0)
            && (before > 0.0 ==> (1.0 + Move(closes, base, previous, current)) * before == after)
            && (before <= 0.0 ==> Move(closes, base, previous, current) == 0.0)
  {
    hide Grown;
    HeldExactly(closes, base, previous, current);
    var held := Held(closes, base, previous, current);
    var before, after, n := Grown(held, base, previous), Grown(held, base, current), |held| as real;
    if held == [] {
      assert Grown([], base, previous) == 0.0 by { NothingGrown(base, previous); }
    } else if before > 0.0 {
      PositiveQuotient(before, n);
      GrowthOfMeans(before, after, n);
    } else {
      NoQuotient(before, n);
    }
  }

  lemma {:induction false} NothingGrown(base: Date, day: Date)
    ensures Grown([], base, day) == 0.0
  {
  }

  lemma {:induction false} NoQuotient(a: real, b: real)
    requires a <= 0.0 && b > 0.0
    ensures a / b <= 0.0
  {
  }

  lemma {:induction false} GrowthOfMeans(before: real, after: real, n: real)
    requires before > 0.0 && n > 0.0 && before / n > 0.0
    ensures (after / n) / (before / n) * before == after
  {
    var b, a := before / n, after / n;
    assert b * n == before && a * n == after;
    assert a / b * b == a;
    assert a / b * (b * n) == a / b * b * n;
  }

  lemma {:induction false} HeldExactly(closes: seq<Series>, base: Date, previous: Date, current: Date)
    ensures forall s :: s in Held(closes, base, previous, current)
                        <==> s in closes && base in s && previous in s && current in s && s[base] > 0.0
  {
    if closes != [] {
      var before, last := closes[..|closes| - 1], closes[|closes| - 1];
      assert closes == before + [last];
      HeldExactly(before, base, previous, current);
    }
  }

  // ----- the comparison -----

  /** One session's close: the account's equity and the dollars invested. */
  datatype SessionPoint = SessionPoint(equity: real, gross: real)

  /** `exposure_fraction`. */
  function Exposure(p: SessionPoint): real {
    if p.equity <= 0.0 then 0.0 else p.gross / p.equity
  }

  /** The account's move from one close to the next. */
  function AccountMove(previous: SessionPoint, current: SessionPoint): real {
    if previous.equity == 0.0 then 0.0 else current.equity / previous.equity - 1.0
  }

  /** What the exposure carried into the session entitled the account to. */
  function Entitled(previous: SessionPoint, move: real): real {
    Exposure(previous) * move
  }

  datatype Refusal = TooFewPoints | LengthMismatch | WorthlessEquity

  datatype Comparison = Comparison(accountReturn: real, benchmarkReturn: real, entitled: real, excess: real,
                                   averageExposure: real, excessSeries: seq<real>)

  predicate Solvent(points: seq<SessionPoint>) {
    forall k :: 0 <= k < |points| ==> points[k].equity > 0.0
  }

  /** The account's move over each of the first `n` sessions. */
  function AccountMoves(points: seq<SessionPoint>, n: nat): (r: seq<real>)
    requires n < |points|
    ensures |r| == n
  {
    seq(n, k requires 0 <= k < n => AccountMove(points[k], points[k + 1]))
  }

  /** What the prior session's exposure entitled the account to. */
  function Attributed(points: seq<SessionPoint>, benchmark: seq<real>, n: nat): (r: seq<real>)
    requires n < |points| && n <= |benchmark|
    ensures |r| == n
  {
    seq(n, k requires 0 <= k < n => Entitled(points[k], benchmark[k]))
  }

  function Carried(points: seq<SessionPoint>, n: nat): (r: seq<real>)
    requires n < |points|
    ensures |r| == n
  {
    seq(n, k requires 0 <= k < n => Exposure(points[k]))
  }

  function Less(a: seq<real>, b: seq<real>): (r: seq<real>)
    requires |a| == |b|
    ensures |r| == |a|
  {
    seq(|a|, k requires 0 <= k < |a| => a[k] - b[k])
  }

  lemma {:induction false} SumOfLess(a: seq<real>, b: seq<real>)
    requires |a| == |b|
    ensures Sum(Less(a, b)) + Sum(b) == Sum(a)
  {
    if a != [] {
      var d := Less(a, b);
      var d0 := Less(a[..|a| - 1], b[..|b| - 1]);
      assert forall k :: 0 <= k < |d0| ==> d[k] == d0[k];
      assert d[..|d| - 1] == d0;
      SumOfLess(a[..|a| - 1], b[..|b| - 1]);
    }
  }

  /** What one more session adds to each running total. */
  lemma {:induction false} OneMoreSession(points: seq<SessionPoint>, benchmark: seq<real>, n: nat)
    requires n + 1 < |points| && n < |benchmark|
    ensures Sum(Attributed(points, benchmark, n + 1))
            == Sum(Attributed(points, benchmark, n)) + Entitled(points[n], benchmark[n])
    ensures Sum(Carried(points, n + 1)) == Sum(Carried(points, n)) + Exposure(points[n])
    ensures Compounded(benchmark[..n + 1]) == Compounded(benchmark[..n]) * (1.0 + benchmark[n])
    ensures Less(AccountMoves(points, n + 1), Attributed(points, benchmark, n + 1))
            == Less(AccountMoves(points, n), Attributed(points, benchmark, n))
               + [AccountMove(points[n], points[n + 1]) - Entitled(points[n], benchmark[n])]
  {
    hide Entitled, Exposure, AccountMove, Sum, Compounded;
    SumSnoc(Attributed(points, benchmark, n), Attributed(points, benchmark, n + 1), Entitled(points[n], benchmark[n]));
    SumSnoc(Carried(points, n), Carried(points, n + 1), Exposure(points[n]));
    CompoundedSnoc(benchmark[..n], benchmark[..n + 1], benchmark[n]);
  }

  /**
   `compare_to_benchmark`: refused for fewer than two points, a benchmark of the wrong length, or an equity that
   is not positive; otherwise the account's moves split, session by session, into entitled and excess.
   */
  method CompareToBenchmark(points: seq<SessionPoint>, benchmark: seq<real>) returns (r: Result<Comparison, Refusal>)
    ensures r.Err? <==> |points| < 2 || |benchmark| != |points| - 1 || exists p <- points :: p.equity <= 0.0
    ensures r.Err? ==>
              r.error == if |points| < 2 then TooFewPoints
                         else if |benchmark| != |points| - 1 then LengthMismatch else WorthlessEquity
    ensures r.Ok? ==> Totals(points, benchmark, r.value)
  {
    hide Totals;
    if |points| < 2 {
      return Err(TooFewPoints);
    }
    if |benchmark| != |points| - 1 {
      return Err(LengthMismatch);
    }
    var k := 0;
    while k < |points|
      invariant 0 <= k <= |points| && forall j :: 0 <= j < k ==> points[j].equity > 0.0
    {
      if points[k].equity <= 0.0 {
        return Err(WorthlessEquity);
      }
      k := k + 1;
    }
    var c := Accumulate(points, benchmark);
    return Ok(c);
  }

  /** The loop of `compare_to_benchmark`. */
  method Accumulate(points: seq<SessionPoint>, benchmark: seq<real>) returns (c: Comparison)
    requires benchmark != [] && |points| == |benchmark| + 1 && Solvent(points)
    ensures Totals(points, benchmark, c)
  {
    hide Entitled, Exposure, AccountMove, Sum, Compounded, Attributed, Carried, AccountMoves, Less;
    var excess, entitled, compounded, exposures := 0.0, 0.0, 1.0, 0.0;
    var series: seq<real> := [];
    var n := 0;
    NoSessions(points, benchmark);
    while n < |benchmark|
      invariant 0 <= n <= |benchmark|
      invariant entitled == Sum(Attributed(points, benchmark, n)) && exposures == Sum(Carried(points, n))
      invariant series == Less(AccountMoves(points, n), Attributed(points, benchmark, n)) && excess == Sum(series)
      invariant compounded == Compounded(benchmark[..n])
    {
      OneMoreSession(points, benchmark, n);
      var sessionExcess := AccountMove(points[n], points[n + 1]) - Entitled(points[n], benchmark[n]);
      SumSnoc(series, series + [sessionExcess], sessionExcess);
      entitled := entitled + Entitled(points[n], benchmark[n]);
      series := series + [sessionExcess];
      excess := excess + sessionExcess;
      exposures := exposures + Exposure(points[n]);
      compounded := compounded * (1.0 + benchmark[n]);
      n := n + 1;
    }
    assert benchmark[..n] == benchmark;
    SumOfLess(AccountMoves(points, n), Attributed(points, benchmark, n));
    c := Comparison(points[n].equity / points[0].equity - 1.0, compounded - 1.0, entitled, excess,
                    exposures / n as real, series);
  }

  lemma {:induction false} NoSessions(points: seq<SessionPoint>, benchmark: seq<real>)
    requires points != []
    ensures Sum(Attributed(points, benchmark, 0)) == 0.0 == Sum(Carried(points, 0)) == Sum([])
    ensures Less(AccountMoves(points, 0), Attributed(points, benchmark, 0)) == [] && Compounded(benchmark[..0]) == 1.0
  {
  }

  /** What every scored comparison adds up to. */
  ghost predicate Totals(points: seq<SessionPoint>, benchmark: seq<real>, c: Comparison)
    requires benchmark != [] && |points| == |benchmark| + 1 && Solvent(points)
  {
    var n := |benchmark|;
    && c.excess + c.entitled == Sum(AccountMoves(points, n))
    && c.entitled == Sum(Attributed(points, benchmark, n))
    && c.excessSeries == Less(AccountMoves(points, n), Attributed(points, benchmark, n))
    && c.excess == Sum(c.excessSeries)
    && c.benchmarkReturn == Compounded(benchmark) - 1.0
    && c.accountReturn == points[n].equity / points[0].equity - 1.0
    && c.averageExposure == Sum(Carried(points, n)) / n as real
  }

  /** In dollars: a session's excess is what the account gained beyond the benchmark's move on what it had invested. */
  lemma {:induction false} ExcessInDollars(points: seq<SessionPoint>, benchmark: seq<real>, c: Comparison, k: nat)
    requires k < |benchmark| && |points| == |benchmark| + 1 && Solvent(points) && Totals(points, benchmark, c)
    ensures |c.excessSeries| == |benchmark|
    ensures c.excessSeries[k] * points[k].equity
            == points[k + 1].equity - points[k].equity - points[k].gross * benchmark[k]
  {
    hide Sum, Compounded;
    var equity, after, gross, move := points[k].equity, points[k + 1].equity, points[k].gross, benchmark[k];
    assert c.excessSeries[k] == after / equity - 1.0 - gross / equity * move;
    InDollars(equity, after, gross, move);
  }

  lemma {:induction false} InDollars(equity: real, after: real, gross: real, move: real)
    requires equity > 0.0
    ensures (after / equity - 1.0 - gross / equity * move) * equity == after - equity - gross * move
  {
    var growth, exposure := after / equity, gross / equity;
    assert growth * equity == after && exposure * equity == gross;
    assert exposure * move * equity == exposure * equity * move;
  }

  /** The account's moves compound to what its equity became, wherever they are cut. */
  lemma {:induction false} AccountCompounds(points: seq<SessionPoint>, n: nat)
    requires n < |points| && Solvent(points)
    ensures Compounded(AccountMoves(points, n)) * points[0].equity == points[n].equity
  {
    hide Compounded;
    if n == 0 {
      NothingCompounded();
    } else {
      AccountCompounds(points, n - 1);
      var before, after := points[n - 1].equity, points[n].equity;
      var grown := Compounded(AccountMoves(points, n - 1));
      CompoundedSnoc(AccountMoves(points, n - 1), AccountMoves(points, n), after / before - 1.0);
      OneMoreMove(grown, points[0].equity, before, after);
    }
  }

  lemma {:induction false} OneMoreMove(grown: real, start: real, before: real, after: real)
    requires before > 0.0 && grown * start == before
    ensures grown * (1.0 + (after / before - 1.0)) * start == after
  {
    var q := after / before;
    assert q * before == after;
    assert grown * q * start == grown * start * q;
  }
}
