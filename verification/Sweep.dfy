/**
 The daily-bar sweep (src/shrap/market_data/trigger_service.py, backfill.py, store.py). A ticker's stored rows are
 kept as the set of its session days; its feed is the fixed, increasing list of sessions the client answers with,
 oldest first. Days are integers.
 */
module Sweep {
  import opened Wrappers

  type Ticker = string
  type Days = set<int>

  ghost predicate Ascending(feed: seq<int>) {
    forall j, k :: 0 <= j < k < |feed| ==> feed[j] < feed[k]
  }

  /** How many sessions of the feed come before `day`. */
  function CountBelow(feed: seq<int>, day: int): (n: nat)
    ensures n <= |feed|
    ensures Ascending(feed) ==> forall k :: 0 <= k < |feed| ==> (k < n <==> feed[k] < day)
  {
    if feed == [] then 0
    else if feed[|feed| - 1] < day then |feed|
    else CountBelow(feed[..|feed| - 1], day)
  }

  /** `get_daily_bars`: the sessions from `start` to `today`. */
  function Sessions(feed: seq<int>, start: int, today: int): (s: seq<int>)
    ensures |s| == Span(feed, start, today)
  {
    var lo := CountBelow(feed, start);
    feed[lo..lo + Span(feed, start, today)]
  }

  function Span(feed: seq<int>, start: int, today: int): (n: nat)
    ensures CountBelow(feed, start) + n <= |feed|
  {
    var lo, hi := CountBelow(feed, start), CountBelow(feed, today + 1);
    if lo <= hi then hi - lo else 0
  }

  /** The days stored after the first `cut` rows of a fetch are upserted. */
  function Fill(feed: seq<int>, days: Days, start: int, today: int, cut: nat): Days {
    var rows := Sessions(feed, start, today);
    days + set k | 0 <= k < (if cut < |rows| then cut else |rows|) :: rows[k]
  }

  predicate IsNewest(s: Days, m: int) {
    m in s && forall x :: x in s ==> x <= m
  }

  lemma {:induction false} SomeMember<T>(s: set<T>) returns (x: T)
    requires s != {}
    ensures x in s
  {
    x :| x in s;
  }

  lemma {:induction false} NewestExists(s: Days)
    requires s != {}
    ensures exists m :: IsNewest(s, m)
    decreases s
  {
    var x := SomeMember(s);
    var rest := s - {x};
    if rest == {} {
      assert forall y :: y in s ==> y == x || y in rest;
      assert IsNewest(s, x);
    } else {
      NewestExists(rest);
      var m :| IsNewest(rest, m);
      assert forall y :: y in s ==> y == x || y in rest;
      assert IsNewest(s, if m < x then x else m);
    }
  }

  /** `max(session_date)`. */
  function Last(s: Days): (m: int)
    requires s != {}
    ensures m in s && forall x :: x in s ==> x <= m
  {
    NewestExists(s);
    var m :| m in s && IsNewest(s, m);
    m
  }

  /** Where `plan_windows` starts a ticker's window. */
  function StartOf(days: Days, today: int, restate: int, bootstrap: int): int {
    var start := if days == {} then today - bootstrap else Last(days) - restate;
    if start > today then today else start
  }

  // ----- gaps -----

  /** No session is missing between two stored ones. */
  ghost predicate GapFree(feed: seq<int>, days: Days) {
    forall i, j, k :: 0 <= i < j < k < |feed| && feed[i] in days && feed[k] in days ==> feed[j] in days
  }

  /** Any missing session lies within `restate` days of the newest stored one, where the next sweep begins. */
  ghost predicate GapsAreRecent(feed: seq<int>, days: Days, restate: int) {
    days != {} ==> forall i, j, k :: 0 <= i < j < k < |feed| && feed[i] in days && feed[k] in days && feed[j] !in days
                                     ==> feed[j] >= Last(days) - restate
  }

  /** Stored days are sessions of the feed, none after `today`. */
  ghost predicate FromFeed(feed: seq<int>, days: Days, today: int) {
    forall d :: d in days ==> d <= today && d in feed
  }

  /** Nothing the feed lists since the bootstrap horizon comes before the oldest stored day. */
  ghost predicate ReachesBack(feed: seq<int>, days: Days, horizon: int) {
    days != {} ==> exists i :: 0 <= i < |feed| && feed[i] in days
                     && forall k :: 0 <= k < |feed| && feed[k] >= horizon ==> i <= k
  }

  /** From its oldest stored day on, the ticker has every session up to `today`. */
  ghost predicate UpToDate(feed: seq<int>, days: Days, today: int) {
    forall i, j :: 0 <= i < j < |feed| && feed[i] in days && feed[j] <= today ==> feed[j] in days
  }

  lemma {:induction false} FillMembers(feed: seq<int>, days: Days, start: int, today: int, cut: nat)
    requires Ascending(feed)
    ensures var n := Span(feed, start, today);
            var w := CountBelow(feed, start) + if cut < n then cut else n;
            forall k :: 0 <= k < |feed| ==>
              (feed[k] in Fill(feed, days, start, today, cut) <==> feed[k] in days || CountBelow(feed, start) <= k < w)
  {
    hide CountBelow, Span;
    var rows, lo := Sessions(feed, start, today), CountBelow(feed, start);
    var n := if cut < |rows| then cut else |rows|;
    forall k | 0 <= k < |feed|
      ensures feed[k] in Fill(feed, days, start, today, cut) <==> feed[k] in days || lo <= k < lo + n
    {
      if lo <= k < lo + n {
        assert rows[k - lo] == feed[k];
      }
      if feed[k] in (set j | 0 <= j < n :: rows[j]) {
        var j :| 0 <= j < n && rows[j] == feed[k];
        assert feed[lo + j] == feed[k];
      }
    }
  }

  lemma {:induction false} FillIsFromFeed(feed: seq<int>, days: Days, start: int, today: int, cut: nat)
    requires Ascending(feed) && FromFeed(feed, days, today)
    ensures FromFeed(feed, Fill(feed, days, start, today, cut), today)
  {
    var rows := Sessions(feed, start, today);
    forall j | 0 <= j < |rows| ensures rows[j] <= today && rows[j] in feed {
      assert rows[j] == feed[CountBelow(feed, start) + j];
    }
  }

  /** Where the newest stored day stands in the feed. */
  lemma {:induction false} LastIsListed(feed: seq<int>, days: Days, today: int) returns (l: nat)
    requires days != {} && FromFeed(feed, days, today)
    ensures l < |feed| && feed[l] == Last(days)
  {
    assert Last(days) in feed;
    l :| 0 <= l < |feed| && feed[l] == Last(days);
  }

  /** A fill from the planned start keeps gaps recent, wherever it is cut. */
  lemma {:induction false} FillKeepsGapsRecent(feed: seq<int>, days: Days, today: int, restate: nat, bootstrap: int,
                                               cut: nat)
    requires Ascending(feed) && FromFeed(feed, days, today) && GapsAreRecent(feed, days, restate)
    ensures GapsAreRecent(feed, Fill(feed, days, StartOf(days, today, restate, bootstrap), today, cut), restate)
  {
    hide Fill, CountBelow, Span, Last;
    var start := StartOf(days, today, restate, bootstrap);
    var days' := Fill(feed, days, start, today, cut);
    FillMembers(feed, days, start, today, cut);
    FillIsFromFeed(feed, days, start, today, cut);
    if days' != {} {
      var l' := LastIsListed(feed, days', today);
      forall i, j, k | 0 <= i < j < k < |feed| && feed[i] in days' && feed[k] in days' && feed[j] !in days'
        ensures feed[j] >= Last(days') - restate
      {
        if days != {} {
          var l := LastIsListed(feed, days, today);
          if feed[i] in days {
            GapBeforeStart(feed, days, restate, start, i, j, l);
          }
          assert feed[k] in days ==> feed[k] <= Last(days);
        }
      }
    }
  }

  /** A session missing before the planned start would have been an old gap. */
  lemma {:induction false} GapBeforeStart(feed: seq<int>, days: Days, restate: nat, start: int, i: nat, j: nat, l: nat)
    requires Ascending(feed) && GapsAreRecent(feed, days, restate)
    requires i < j < |feed| && l < |feed| && days != {} && feed[l] == Last(days) && start <= Last(days) - restate
    requires feed[i] in days && feed[j] !in days
    ensures feed[j] >= start
  {
    assert l <= j ==> feed[l] <= feed[j];
  }

  /** A complete fill from the planned start leaves nothing missing from the oldest stored day to today. */
  lemma {:induction false} CompleteFillIsUpToDate(feed: seq<int>, days: Days, today: int, restate: nat, bootstrap: int,
                                                  cut: nat)
    requires Ascending(feed) && FromFeed(feed, days, today) && GapsAreRecent(feed, days, restate)
    requires cut >= Span(feed, StartOf(days, today, restate, bootstrap), today)
    ensures UpToDate(feed, Fill(feed, days, StartOf(days, today, restate, bootstrap), today, cut), today)
  {
    hide Fill, Last;
    var start := StartOf(days, today, restate, bootstrap);
    var days' := Fill(feed, days, start, today, cut);
    FillMembers(feed, days, start, today, cut);
    forall i, j | 0 <= i < j < |feed| && feed[i] in days' && feed[j] <= today ensures feed[j] in days' {
      if feed[j] !in days' && days != {} {
        var l := LastIsListed(feed, days, today);
        if feed[j] < start {
          GapBeforeStart(feed, days, restate, start, i, j, l);
        }
      }
    }
  }

  /** After a completed sweep, re-reading the whole bootstrap span adds no day. */
  lemma {:induction false} RefetchAddsNoDay(feed: seq<int>, days: Days, today: int, bootstrap: int, cut: nat)
    requires Ascending(feed) && UpToDate(feed, days, today) && ReachesBack(feed, days, today - bootstrap) && days != {}
    ensures Fill(feed, days, today - bootstrap, today, cut) == days
  {
    var start := today - bootstrap;
    var rows := Sessions(feed, start, today);
    var i :| 0 <= i < |feed| && feed[i] in days && forall k :: 0 <= k < |feed| && feed[k] >= start ==> i <= k;
    forall j | 0 <= j < |rows| ensures rows[j] in days {
      var k := CountBelow(feed, start) + j;
      assert rows[j] == feed[k] && start <= feed[k] <= today;
      assert k == i || feed[k] in days;
    }
  }

  // ----- one sweep of one ticker -----

  /** `days'` is `days` after some first rows of a fetch from `start`. */
  ghost predicate Filled(feed: seq<int>, days: Days, days': Days, start: int, today: int) {
    exists cut: nat :: days' == Fill(feed, days, start, today, cut)
  }

  /**
   What a sweep may do to one ticker: upsert some first rows of its planned window and, once the whole sweep has
   filled every window, some first rows of a full refetch. `complete` says the planned window was filled.
   */
  ghost predicate Swept(feed: seq<int>, days: Days, days': Days, today: int, restate: int, bootstrap: int,
                        complete: bool) {
    var start := StartOf(days, today, restate, bootstrap);
    var all := Fill(feed, days, start, today, Span(feed, start, today));
    || (!complete && Filled(feed, days, days', start, today))
    || (complete && days' == all)
    || (complete && days != {} && Filled(feed, all, days', today - bootstrap, today))
  }

  ghost predicate Inv(feed: seq<int>, days: Days, today: int, restate: int, bootstrap: int) {
    FromFeed(feed, days, today) && GapsAreRecent(feed, days, restate) && ReachesBack(feed, days, today - bootstrap)
  }

  lemma {:induction false} FillReachesBack(feed: seq<int>, days: Days, today: int, restate: nat, bootstrap: nat,
                                           cut: nat)
    requires Ascending(feed) && ReachesBack(feed, days, today - bootstrap)
    ensures ReachesBack(feed, Fill(feed, days, StartOf(days, today, restate, bootstrap), today, cut), today - bootstrap)
  {
    hide Last;
    var start := StartOf(days, today, restate, bootstrap);
    var days' := Fill(feed, days, start, today, cut);
    if days != {} {
      var i :| 0 <= i < |feed| && feed[i] in days
        && forall k :: 0 <= k < |feed| && feed[k] >= today - bootstrap ==> i <= k;
      assert feed[i] in days';
    } else if days' != {} {
      FillMembers(feed, days, start, today, cut);
      var rows := Sessions(feed, start, today);
      assert rows != [];
      var lo := CountBelow(feed, start);
      assert lo < |feed| && feed[lo] in days' by {
        var d :| d in days';
        assert cut > 0;
        assert feed[lo] == rows[0];
      }
    }
  }

  lemma {:induction false} SweepKeeps(feed: seq<int>, days: Days, days': Days, today: int, restate: nat, bootstrap: nat,
                                      complete: bool)
    requires Ascending(feed) && Inv(feed, days, today, restate, bootstrap)
    requires Swept(feed, days, days', today, restate, bootstrap, complete)
    ensures Inv(feed, days', today, restate, bootstrap)
    ensures days <= days'
    ensures complete ==> UpToDate(feed, days', today) && GapFree(feed, days')
  {
    hide FromFeed, GapsAreRecent, ReachesBack, StartOf, CountBelow, UpToDate;
    var start := StartOf(days, today, restate, bootstrap);
    var n := Span(feed, start, today);
    var all := Fill(feed, days, start, today, n);
    FillKeepsGapsRecent(feed, days, today, restate, bootstrap, n);
    FillIsFromFeed(feed, days, start, today, n);
    FillReachesBack(feed, days, today, restate, bootstrap, n);
    CompleteFillIsUpToDate(feed, days, today, restate, bootstrap, n);
    UpToDateIsGapFree(feed, all, today);
    if complete {
      if days' != all {
        var cut: nat :| days' == Fill(feed, all, today - bootstrap, today, cut);
        RefetchAddsNoDay(feed, all, today, bootstrap, cut);
      }
    } else {
      var cut: nat :| days' == Fill(feed, days, start, today, cut);
      FillKeepsGapsRecent(feed, days, today, restate, bootstrap, cut);
      FillIsFromFeed(feed, days, start, today, cut);
      FillReachesBack(feed, days, today, restate, bootstrap, cut);
    }
  }

  lemma {:induction false} UpToDateIsGapFree(feed: seq<int>, days: Days, today: int)
    requires Ascending(feed) && UpToDate(feed, days, today) && FromFeed(feed, days, today)
    ensures GapFree(feed, days)
  {
    forall i, j, k | 0 <= i < j < k < |feed| && feed[i] in days && feed[k] in days ensures feed[j] in days {
      assert feed[j] < feed[k];
    }
  }

  // ----- any run of sweeps -----

  /**
   The days one ticker held before each sweep and after the last; when each ran, and whether its window was filled.
   */
  datatype Sweep = Sweep(today: int, complete: bool)

  ghost predicate History(feed: seq<int>, states: seq<Days>, sweeps: seq<Sweep>, restate: int, bootstrap: int) {
    && |states| == |sweeps| + 1 && states[0] == {}
    && (forall k :: 0 <= k < |sweeps|
          ==> Swept(feed, states[k], states[k + 1], sweeps[k].today, restate, bootstrap, sweeps[k].complete))
    && (forall k :: 0 < k < |sweeps| ==> sweeps[k - 1].today <= sweeps[k].today)
  }

  lemma {:induction false} LaterToday(feed: seq<int>, days: Days, today: int, later: int, restate: int, bootstrap: int)
    requires Inv(feed, days, today, restate, bootstrap) && today <= later
    ensures Inv(feed, days, later, restate, bootstrap)
  {
  }

  lemma {:induction false} HistoryKeeps(feed: seq<int>, states: seq<Days>, sweeps: seq<Sweep>, restate: nat,
                                        bootstrap: nat, n: nat)
    requires Ascending(feed) && History(feed, states, sweeps, restate, bootstrap) && 0 < n <= |sweeps|
    ensures Inv(feed, states[n], sweeps[n - 1].today, restate, bootstrap)
    ensures Inv(feed, states[n - 1], sweeps[n - 1].today, restate, bootstrap)
    ensures sweeps[n - 1].complete ==> UpToDate(feed, states[n], sweeps[n - 1].today) && GapFree(feed, states[n])
  {
    hide Swept, GapFree, UpToDate, GapsAreRecent, ReachesBack;
    if n == 1 {
      EmptyHolds(feed, sweeps[0].today, restate, bootstrap);
    } else {
      HistoryKeeps(feed, states, sweeps, restate, bootstrap, n - 1);
      LaterToday(feed, states[n - 1], sweeps[n - 2].today, sweeps[n - 1].today, restate, bootstrap);
    }
    SweepKeeps(feed, states[n - 1], states[n], sweeps[n - 1].today, restate, bootstrap, sweeps[n - 1].complete);
  }

  lemma {:induction false} EmptyHolds(feed: seq<int>, today: int, restate: int, bootstrap: int)
    ensures Inv(feed, {}, today, restate, bootstrap)
  {
  }

  /**
   Over any run of sweeps on days that never go back, each cut after any row, from an empty store: a ticker's
   stored days are sessions of its feed; any gap lies within the restate window, which the next sweep re-reads;
   and a sweep that filled the ticker's window leaves no gap, every session from the oldest stored day up to its
   own, and, new ticker or not, every session of the bootstrap span.
   */
  lemma {:induction false} SweepContract(feed: seq<int>, states: seq<Days>, sweeps: seq<Sweep>, restate: nat,
                                         bootstrap: nat, n: nat)
    requires Ascending(feed) && History(feed, states, sweeps, restate, bootstrap) && 0 < n <= |sweeps|
    ensures FromFeed(feed, states[n], sweeps[n - 1].today)
    ensures GapsAreRecent(feed, states[n], restate)
    ensures sweeps[n - 1].complete ==> GapFree(feed, states[n]) && UpToDate(feed, states[n], sweeps[n - 1].today)
    ensures sweeps[n - 1].complete ==>
              forall k :: 0 <= k < |feed| && sweeps[n - 1].today - bootstrap <= feed[k] <= sweeps[n - 1].today
                ==> feed[k] in states[n]
  {
    hide Swept, GapFree, UpToDate, GapsAreRecent, ReachesBack;
    HistoryKeeps(feed, states, sweeps, restate, bootstrap, n);
    if sweeps[n - 1].complete {
      SpanIsFilled(feed, states[n - 1], states[n], sweeps[n - 1].today, restate, bootstrap);
    }
  }

  /** A completed sweep leaves every session of the bootstrap span stored. */
  lemma {:induction false} SpanIsFilled(feed: seq<int>, days: Days, days': Days, today: int, restate: nat,
                                        bootstrap: nat)
    requires Ascending(feed) && Inv(feed, days', today, restate, bootstrap) && UpToDate(feed, days', today)
    requires Swept(feed, days, days', today, restate, bootstrap, true)
    ensures forall k :: 0 <= k < |feed| && today - bootstrap <= feed[k] <= today ==> feed[k] in days'
  {
    hide Last, CountBelow, Span;
    if days == {} {
      SpanIsFetched(feed, days, today - bootstrap, today);
    } else {
      var d := SomeMember(days);
      assert d in days';
      var i :| 0 <= i < |feed| && feed[i] in days'
        && forall k :: 0 <= k < |feed| && feed[k] >= today - bootstrap ==> i <= k;
    }
  }

  lemma {:induction false} SpanIsFetched(feed: seq<int>, days: Days, start: int, today: int)
    requires Ascending(feed)
    ensures forall k :: 0 <= k < |feed| && start <= feed[k] <= today ==>
              feed[k] in Fill(feed, days, start, today, Span(feed, start, today))
  {
    hide Fill;
    FillMembers(feed, days, start, today, Span(feed, start, today));
  }

  /** A bootstrap leaves no gap wherever it is cut. */
  lemma {:induction false} BootstrapIsGapFree(feed: seq<int>, today: int, restate: nat, bootstrap: int, cut: nat)
    requires Ascending(feed)
    ensures GapFree(feed, Fill(feed, {}, StartOf({}, today, restate, bootstrap), today, cut))
  {
    FillMembers(feed, {}, StartOf({}, today, restate, bootstrap), today, cut);
  }

  /** A stored session comes before position `k`. */
  ghost predicate SomeBefore(feed: seq<int>, days: Days, k: nat) {
    exists i :: 0 <= i < k && i < |feed| && feed[i] in days
  }

  /** At most one session of the feed lies from `start` up to the oldest stored day. */
  ghost predicate ShallowBelow(feed: seq<int>, days: Days, start: int) {
    forall j, k :: 0 <= j < k < |feed| && start <= feed[j] && feed[j] !in days
      ==> feed[k] in days || SomeBefore(feed, days, k)
  }

  /**
   From a gap-free store, a sweep leaves no gap wherever it is cut exactly when its window reaches at most one
   session below the oldest stored day.
   */
  lemma {:induction false} GapFreeWhereverCut(feed: seq<int>, days: Days, today: int, restate: nat, bootstrap: int)
    requires Ascending(feed) && days != {} && FromFeed(feed, days, today) && GapFree(feed, days)
    ensures (forall cut: nat :: GapFree(feed, Fill(feed, days, StartOf(days, today, restate, bootstrap), today, cut)))
            <==> ShallowBelow(feed, days, StartOf(days, today, restate, bootstrap))
  {
    var start := StartOf(days, today, restate, bootstrap);
    var l := LastIsListed(feed, days, today);
    if ShallowBelow(feed, days, start) {
      forall cut: nat ensures GapFree(feed, Fill(feed, days, start, today, cut)) {
        ShallowFill(feed, days, start, today, cut, l);
      }
    } else {
      DeepFill(feed, days, start, today, l);
    }
  }

  lemma {:induction false} ShallowFill(feed: seq<int>, days: Days, start: int, today: int, cut: nat, l: nat)
    requires Ascending(feed) && GapFree(feed, days) && ShallowBelow(feed, days, start)
    requires l < |feed| && feed[l] in days && start <= feed[l]
    ensures GapFree(feed, Fill(feed, days, start, today, cut))
  {
    hide Fill, Span;
    var days' := Fill(feed, days, start, today, cut);
    FillMembers(feed, days, start, today, cut);
    forall i, j, k | 0 <= i < j < k < |feed| && feed[i] in days' && feed[k] in days' ensures feed[j] in days' {
      if feed[j] < start {
        assert j < l;
        assert feed[i] in days;
      } else if feed[i] !in days && SomeBefore(feed, days, j) {
        var a :| 0 <= a < j && feed[a] in days;
        assert feed[k] in days ==> feed[j] in days;
      }
    }
  }

  lemma {:induction false} NoneBefore(feed: seq<int>, days: Days, k: nat)
    requires !SomeBefore(feed, days, k)
    ensures forall i :: 0 <= i < k && i < |feed| ==> feed[i] !in days
  {
  }

  lemma {:induction false} DeepFill(feed: seq<int>, days: Days, start: int, today: int, l: nat)
    requires Ascending(feed) && !ShallowBelow(feed, days, start)
    requires l < |feed| && feed[l] in days && feed[l] <= today
    ensures !GapFree(feed, Fill(feed, days, start, today, 1))
  {
    hide Fill;
    var j, k :| 0 <= j < k < |feed| && start <= feed[j] && feed[j] !in days && feed[k] !in days
      && !SomeBefore(feed, days, k);
    FillMembers(feed, days, start, today, 1);
    var lo := CountBelow(feed, start);
    var days' := Fill(feed, days, start, today, 1);
    NoneBefore(feed, days, k);
    assert lo <= j && k < l;
    assert feed[lo] in days' && feed[lo + 1] !in days' && feed[l] in days';
  }

  /** Wherever the sweep is cut, it leaves no gap. */
  ghost predicate NoCutLeavesAGap(feed: seq<int>, days: Days, today: int, restate: int, bootstrap: int) {
    forall cut: nat :: GapFree(feed, Fill(feed, days, StartOf(days, today, restate, bootstrap), today, cut))
  }

  /** `GapFreeWhereverCut` at the `k`-th sweep of a run; a bootstrap leaves no gap anyhow. */
  ghost predicate ShallowAt(feed: seq<int>, states: seq<Days>, sweeps: seq<Sweep>, restate: int, bootstrap: int, k: nat)
    requires k < |states| && k < |sweeps|
  {
    states[k] != {} ==> ShallowBelow(feed, states[k], StartOf(states[k], sweeps[k].today, restate, bootstrap))
  }

  lemma {:induction false} ShallowAtExactly(feed: seq<int>, states: seq<Days>, sweeps: seq<Sweep>, restate: nat,
                                            bootstrap: nat, k: nat)
    requires Ascending(feed) && History(feed, states, sweeps, restate, bootstrap) && k < |sweeps|
    ensures NoCutLeavesAGap(feed, states[k], sweeps[k].today, restate, bootstrap)
            <==> GapFree(feed, states[k]) && ShallowAt(feed, states, sweeps, restate, bootstrap, k)
  {
    hide Swept, Fill, GapFree, ShallowBelow, StartOf, GapsAreRecent, ReachesBack;
    var days, today := states[k], sweeps[k].today;
    HistoryKeeps(feed, states, sweeps, restate, bootstrap, k + 1);
    FillNothing(feed, days, StartOf(days, today, restate, bootstrap), today);
    if days == {} {
      forall cut: nat ensures GapFree(feed, Fill(feed, days, StartOf(days, today, restate, bootstrap), today, cut)) {
        BootstrapIsGapFree(feed, today, restate, bootstrap, cut);
      }
    } else if GapFree(feed, days) {
      GapFreeWhereverCut(feed, days, today, restate, bootstrap);
    }
  }

  lemma {:induction false} GapFreeSoFar(feed: seq<int>, states: seq<Days>, sweeps: seq<Sweep>, restate: nat,
                                        bootstrap: nat, n: nat)
    requires Ascending(feed) && History(feed, states, sweeps, restate, bootstrap) && n <= |sweeps|
    requires forall k :: 0 <= k < n && !sweeps[k].complete ==> ShallowAt(feed, states, sweeps, restate, bootstrap, k)
    ensures GapFree(feed, states[n])
  {
    hide GapFree, ShallowAt, StartOf, UpToDate, Fill, Inv;
    if n == 0 {
      EmptyIsGapFree(feed);
    } else if sweeps[n - 1].complete {
      HistoryKeeps(feed, states, sweeps, restate, bootstrap, n);
    } else {
      GapFreeSoFar(feed, states, sweeps, restate, bootstrap, n - 1);
      ShallowAtExactly(feed, states, sweeps, restate, bootstrap, n - 1);
      assert Swept(feed, states[n - 1], states[n], sweeps[n - 1].today, restate, bootstrap, false);
    }
  }

  lemma {:induction false} EmptyIsGapFree(feed: seq<int>)
    ensures GapFree(feed, {})
  {
  }

  /**
   Over any run: the sweeps that were cut leave no gap wherever they are cut exactly when, at each of them, the window
   reaches at most one session below the oldest stored day; and then no state of the run has a gap.
   */
  lemma {:induction false} RunIsGapFreeWhereverCut(feed: seq<int>, states: seq<Days>, sweeps: seq<Sweep>, restate: nat,
                                                   bootstrap: nat)
    requires Ascending(feed) && History(feed, states, sweeps, restate, bootstrap)
    ensures var shallow := forall k :: 0 <= k < |sweeps| && !sweeps[k].complete
                             ==> ShallowAt(feed, states, sweeps, restate, bootstrap, k);
            && ((forall k :: 0 <= k < |sweeps| && !sweeps[k].complete ==>
                   NoCutLeavesAGap(feed, states[k], sweeps[k].today, restate, bootstrap)) <==> shallow)
            && (shallow ==> forall n :: 0 <= n <= |sweeps| ==> GapFree(feed, states[n]))
  {
    hide GapFree, ShallowAt, NoCutLeavesAGap, Swept, StartOf;
    forall k | 0 <= k < |sweeps|
      ensures NoCutLeavesAGap(feed, states[k], sweeps[k].today, restate, bootstrap)
              <==> GapFree(feed, states[k]) && ShallowAt(feed, states, sweeps, restate, bootstrap, k)
    {
      ShallowAtExactly(feed, states, sweeps, restate, bootstrap, k);
    }
    if forall k :: 0 <= k < |sweeps| && !sweeps[k].complete ==> ShallowAt(feed, states, sweeps, restate, bootstrap, k) {
      forall n | 0 <= n <= |sweeps| ensures GapFree(feed, states[n]) {
        GapFreeSoFar(feed, states, sweeps, restate, bootstrap, n);
      }
    }
  }

  /**
   Two cut sweeps of a new ticker on one day that leave a gap, for any bootstrap span and restate window of two days.
   */
  lemma {:induction false} CutSweepsLeaveAGap(restate: nat, bootstrap: nat, today: int)
    requires restate >= 2
    ensures var d := today - bootstrap;
            var feed, states := [d - restate, d - 1, d], [{}, {d}, {d - restate, d}];
            && Ascending(feed)
            && History(feed, states, [Sweep(today, false), Sweep(today, false)], restate, bootstrap)
            && !GapFree(feed, states[2])
  {
    var d := today - bootstrap;
    var feed: seq<int>, states: seq<Days> := [d - restate, d - 1, d], [{}, {d}, {d - restate, d}];
    assert StartOf(states[0], today, restate, bootstrap) == d;
    OneRow(feed, states[0], d, today, 2);
    assert StartOf(states[1], today, restate, bootstrap) == d - restate by {
      assert d in states[1];
    }
    OneRow(feed, states[1], d - restate, today, 0);
    assert feed[0] in states[2] && feed[1] !in states[2] && feed[2] in states[2];
  }

  /** A restate window of one day reaches at most one session below the newest stored one. */
  lemma {:induction false} ShortWindowIsShallow(feed: seq<int>, days: Days, today: int, restate: nat, bootstrap: int)
    requires Ascending(feed) && FromFeed(feed, days, today) && days != {} && restate <= 1
    ensures ShallowBelow(feed, days, StartOf(days, today, restate, bootstrap))
  {
    var l := LastIsListed(feed, days, today);
    var start := StartOf(days, today, restate, bootstrap);
    forall j, k | 0 <= j < k < |feed| && start <= feed[j] && feed[j] !in days
      ensures feed[k] in days || SomeBefore(feed, days, k)
    {
      assert feed[j] < feed[k];
      assert feed[k] >= feed[l];
    }
  }

  /** Some run, cut where it was, leaves a gap. */
  ghost predicate CanLeaveAGap(restate: int, bootstrap: int) {
    exists feed, states, sweeps, n: nat :: Ascending(feed) && History(feed, states, sweeps, restate, bootstrap)
                                          && n < |states| && !GapFree(feed, states[n])
  }

  /** Whatever the bootstrap span, cut sweeps can leave a gap exactly when the restate window is two days or more. */
  lemma {:induction false} GapsNeedTwoDays(restate: nat, bootstrap: nat)
    ensures CanLeaveAGap(restate, bootstrap) <==> restate >= 2
  {
    hide History, GapFree, Ascending;
    if restate >= 2 {
      CutSweepsLeaveAGap(restate, bootstrap, 0);
      var d: int := 0 - bootstrap;
      var feed: seq<int>, states: seq<Days> := [d - restate, d - 1, d], [{}, {d}, {d - restate, d}];
      assert 2 < |states|;
    } else {
      forall feed, states, sweeps, n: nat
        | Ascending(feed) && History(feed, states, sweeps, restate, bootstrap) && n < |states|
        ensures GapFree(feed, states[n])
      {
        ShortWindowsLeaveNone(feed, states, sweeps, restate, bootstrap, n);
      }
    }
  }

  lemma {:induction false} ShortWindowsLeaveNone(feed: seq<int>, states: seq<Days>, sweeps: seq<Sweep>, restate: nat,
                                                 bootstrap: nat, n: nat)
    requires Ascending(feed) && History(feed, states, sweeps, restate, bootstrap) && n < |states| && restate <= 1
    ensures GapFree(feed, states[n])
  {
    hide GapFree, Swept, ShallowBelow, GapsAreRecent, ReachesBack;
    forall k | 0 <= k < |sweeps| ensures ShallowAt(feed, states, sweeps, restate, bootstrap, k) {
      HistoryKeeps(feed, states, sweeps, restate, bootstrap, k + 1);
      if states[k] != {} {
        ShortWindowIsShallow(feed, states[k], sweeps[k].today, restate, bootstrap);
      }
    }
    GapFreeSoFar(feed, states, sweeps, restate, bootstrap, n);
  }

  /** A fetch cut after its first row. */
  lemma {:induction false} OneRow(feed: seq<int>, days: Days, start: int, today: int, k: nat)
    requires Ascending(feed) && k < |feed| && feed[k] == start && start <= today
    ensures Fill(feed, days, start, today, 1) == days + {start}
  {
    assert k > 0 ==> feed[k - 1] < feed[k];
    assert CountBelow(feed, start) == k;
    assert Span(feed, start, today) > 0;
    var rows := Sessions(feed, start, today);
    assert rows[0] == start;
  }

  // ----- planning -----

  datatype WindowPlan = WindowPlan(start: int, end: int, tickers: seq<Ticker>)

  /** Some window starts at `start`. */
  ghost predicate Planned(plans: seq<WindowPlan>, start: int) {
    exists k :: 0 <= k < |plans| && plans[k].start == start
  }

  /** The tickers of `tickers` whose window starts at `start`, in the caller's order. */
  function Sharing(stored: map<Ticker, Days>, tickers: seq<Ticker>, today: int, restate: int, bootstrap: int,
                   start: int): seq<Ticker> {
    if tickers == [] then []
    else
      var before, t := Sharing(stored, tickers[..|tickers| - 1], today, restate, bootstrap, start),
        tickers[|tickers| - 1];
      if StartOf(DaysOf(stored, t), today, restate, bootstrap) == start then before + [t] else before
  }

  function DaysOf(stored: map<Ticker, Days>, t: Ticker): Days {
    if t in stored then stored[t] else {}
  }

  lemma {:induction false} SharingIsFilter(stored: map<Ticker, Days>, tickers: seq<Ticker>, today: int, restate: int,
                                           bootstrap: int, start: int)
    ensures forall t: Ticker :: t in Sharing(stored, tickers, today, restate, bootstrap, start)
              <==> t in tickers && StartOf(DaysOf(stored, t), today, restate, bootstrap) == start
  {
    hide StartOf;
    if tickers != [] {
      SharingIsFilter(stored, tickers[..|tickers| - 1], today, restate, bootstrap, start);
      assert tickers == tickers[..|tickers| - 1] + [tickers[|tickers| - 1]];
    }
  }

  /** The `grouped` dictionary over the first `i` tickers, and its keys in increasing order. */
  ghost predicate Grouped(stored: map<Ticker, Days>, tickers: seq<Ticker>, today: int, restate: int, bootstrap: int,
                          starts: seq<int>, grouped: map<int, seq<Ticker>>) {
    && (forall j, k :: 0 <= j < k < |starts| ==> starts[j] < starts[k])
    && (forall s: int :: s in starts <==> s in grouped)
    && (forall s :: s in grouped
          ==> grouped[s] != [] && grouped[s] == Sharing(stored, tickers, today, restate, bootstrap, s))
    && (forall s: int :: s !in grouped ==> Sharing(stored, tickers, today, restate, bootstrap, s) == [])
  }

  lemma {:induction false} GroupOneMore(stored: map<Ticker, Days>, tickers: seq<Ticker>, i: nat, today: int,
                                        restate: int, bootstrap: int, starts: seq<int>, grouped: map<int, seq<Ticker>>,
                                        starts': seq<int>)
    requires i < |tickers| && Grouped(stored, tickers[..i], today, restate, bootstrap, starts, grouped)
    requires forall j, k :: 0 <= j < k < |starts'| ==> starts'[j] < starts'[k]
    requires var start := StartOf(DaysOf(stored, tickers[i]), today, restate, bootstrap);
             forall s: int :: s in starts' <==> s == start || s in starts
    ensures var start := StartOf(DaysOf(stored, tickers[i]), today, restate, bootstrap);
            Grouped(stored, tickers[..i + 1], today, restate, bootstrap, starts',
                    grouped[start := (if start in grouped then grouped[start] else []) + [tickers[i]]])
  {
    hide StartOf, Sharing;
    SharingGrows(stored, tickers, i, today, restate, bootstrap);
  }

  /** `plan_windows`: start days strictly increasing, each with exactly the tickers that share it. */
  method PlanWindows(stored: map<Ticker, Days>, tickers: seq<Ticker>, today: int, restate: int, bootstrap: int)
    returns (plans: seq<WindowPlan>)
    ensures forall j, k :: 0 <= j < k < |plans| ==> plans[j].start < plans[k].start
    ensures forall k :: 0 <= k < |plans| ==>
              && plans[k].end == today && plans[k].tickers != []
              && plans[k].tickers == Sharing(stored, tickers, today, restate, bootstrap, plans[k].start)
    ensures forall i :: 0 <= i < |tickers| ==>
              Planned(plans, StartOf(DaysOf(stored, tickers[i]), today, restate, bootstrap))
  {
    hide StartOf, Grouped, Sharing;
    var starts: seq<int> := [];
    var grouped: map<int, seq<Ticker>> := map[];
    var i := 0;
    NothingGrouped(stored, tickers, today, restate, bootstrap);
    while i < |tickers|
      invariant 0 <= i <= |tickers|
      invariant Grouped(stored, tickers[..i], today, restate, bootstrap, starts, grouped)
    {
      var t := tickers[i];
      var start := StartOf(DaysOf(stored, t), today, restate, bootstrap);
      KeysInOrder(stored, tickers[..i], today, restate, bootstrap, starts, grouped);
      var starts' := starts;
      if start !in grouped {
        starts' := InsertStart(starts, start);
      }
      GroupOneMore(stored, tickers, i, today, restate, bootstrap, starts, grouped, starts');
      grouped := grouped[start := (if start in grouped then grouped[start] else []) + [t]];
      starts := starts';
      i := i + 1;
    }
    assert tickers[..i] == tickers;
    KeysInOrder(stored, tickers, today, restate, bootstrap, starts, grouped);
    plans := [];
    var n := 0;
    while n < |starts|
      invariant 0 <= n <= |starts| && |plans| == n
      invariant forall k :: 0 <= k < n
                  ==> starts[k] in grouped && plans[k] == WindowPlan(starts[k], today, grouped[starts[k]])
    {
      assert starts[n] in starts;
      plans := plans + [WindowPlan(starts[n], today, grouped[starts[n]])];
      n := n + 1;
    }
    PlansCover(stored, tickers, today, restate, bootstrap, starts, grouped, plans);
  }

  lemma {:induction false} NothingGrouped(stored: map<Ticker, Days>, tickers: seq<Ticker>, today: int, restate: int,
                                          bootstrap: int)
    ensures Grouped(stored, tickers[..0], today, restate, bootstrap, [], map[])
  {
  }

  lemma {:induction false} KeysInOrder(stored: map<Ticker, Days>, tickers: seq<Ticker>, today: int, restate: int,
                                       bootstrap: int, starts: seq<int>, grouped: map<int, seq<Ticker>>)
    requires Grouped(stored, tickers, today, restate, bootstrap, starts, grouped)
    ensures forall j, k :: 0 <= j < k < |starts| ==> starts[j] < starts[k]
    ensures forall s: int :: s in starts <==> s in grouped
  {
  }

  lemma {:induction false} PlansCover(stored: map<Ticker, Days>, tickers: seq<Ticker>, today: int, restate: int,
                                      bootstrap: int, starts: seq<int>, grouped: map<int, seq<Ticker>>,
                                      plans: seq<WindowPlan>)
    requires Grouped(stored, tickers, today, restate, bootstrap, starts, grouped)
    requires |plans| == |starts|
    requires forall k :: 0 <= k < |plans|
               ==> starts[k] in grouped && plans[k] == WindowPlan(starts[k], today, grouped[starts[k]])
    ensures forall k :: 0 <= k < |plans| ==>
              plans[k].tickers != [] && plans[k].tickers
              == Sharing(stored, tickers, today, restate, bootstrap, plans[k].start)
    ensures forall i :: 0 <= i < |tickers| ==>
              Planned(plans, StartOf(DaysOf(stored, tickers[i]), today, restate, bootstrap))
  {
    hide StartOf, Sharing;
    forall i | 0 <= i < |tickers|
      ensures Planned(plans, StartOf(DaysOf(stored, tickers[i]), today, restate, bootstrap))
    {
      var s := StartOf(DaysOf(stored, tickers[i]), today, restate, bootstrap);
      SharingIsFilter(stored, tickers, today, restate, bootstrap, s);
      assert tickers[i] in Sharing(stored, tickers, today, restate, bootstrap, s);
      assert s in starts;
      var k :| 0 <= k < |starts| && starts[k] == s;
      assert plans[k].start == s;
    }
  }

  lemma {:induction false} SharingGrows(stored: map<Ticker, Days>, tickers: seq<Ticker>, i: nat, today: int,
                                        restate: int, bootstrap: int)
    requires i < |tickers|
    ensures forall s: int :: Sharing(stored, tickers[..i + 1], today, restate, bootstrap, s)
              == if StartOf(DaysOf(stored, tickers[i]), today, restate, bootstrap) == s
                 then Sharing(stored, tickers[..i], today, restate, bootstrap, s) + [tickers[i]]
                 else Sharing(stored, tickers[..i], today, restate, bootstrap, s)
  {
    assert tickers[..i + 1][..i] == tickers[..i];
  }

  method InsertStart(starts: seq<int>, start: int) returns (r: seq<int>)
    requires forall j, k :: 0 <= j < k < |starts| ==> starts[j] < starts[k]
    requires start !in starts
    ensures forall j, k :: 0 <= j < k < |r| ==> r[j] < r[k]
    ensures forall s: int :: s in r <==> s == start || s in starts
  {
    var at := 0;
    while at < |starts| && starts[at] < start
      invariant 0 <= at <= |starts| && forall k :: 0 <= k < at ==> starts[k] < start
    {
      at := at + 1;
    }
    r := starts[..at] + [start] + starts[at..];
    assert starts == starts[..at] + starts[at..];
  }

  /** Every ticker lies in exactly one window, which starts where its own gap needs it. */
  lemma {:induction false} OneWindowEach(stored: map<Ticker, Days>, tickers: seq<Ticker>, today: int, restate: int,
                                         bootstrap: int, plans: seq<WindowPlan>, t: Ticker)
    requires t in tickers
    requires forall j, k :: 0 <= j < k < |plans| ==> plans[j].start < plans[k].start
    requires forall k :: 0 <= k < |plans|
               ==> plans[k].tickers == Sharing(stored, tickers, today, restate, bootstrap, plans[k].start)
    requires forall i :: 0 <= i < |tickers| ==>
               Planned(plans, StartOf(DaysOf(stored, tickers[i]), today, restate, bootstrap))
    ensures exists k :: 0 <= k < |plans| && t in plans[k].tickers
                        && plans[k].start == StartOf(DaysOf(stored, t), today, restate, bootstrap)
                        && forall j :: 0 <= j < |plans| && t in plans[j].tickers ==> j == k
  {
    hide StartOf, Sharing;
    var i :| 0 <= i < |tickers| && tickers[i] == t;
    assert Planned(plans, StartOf(DaysOf(stored, tickers[i]), today, restate, bootstrap));
    var k :| 0 <= k < |plans| && plans[k].start == StartOf(DaysOf(stored, tickers[i]), today, restate, bootstrap);
    SharingIsFilter(stored, tickers, today, restate, bootstrap, plans[k].start);
    forall j | 0 <= j < |plans| && t in plans[j].tickers ensures j == k {
      SharingIsFilter(stored, tickers, today, restate, bootstrap, plans[j].start);
    }
  }

  // ----- the sweep over every ticker -----

  ghost predicate Distinct(tickers: seq<Ticker>) {
    forall j, k :: 0 <= j < k < |tickers| ==> tickers[j] != tickers[k]
  }

  lemma {:induction false} SharingIsDistinct(stored: map<Ticker, Days>, tickers: seq<Ticker>, today: int, restate: int,
                                             bootstrap: int, start: int)
    requires Distinct(tickers)
    ensures Distinct(Sharing(stored, tickers, today, restate, bootstrap, start))
  {
    hide StartOf;
    if tickers != [] {
      SharingIsDistinct(stored, tickers[..|tickers| - 1], today, restate, bootstrap, start);
      SharingIsFilter(stored, tickers[..|tickers| - 1], today, restate, bootstrap, start);
    }
  }

  lemma {:induction false} FillOneMore(feed: seq<int>, days: Days, start: int, today: int, cut: nat)
    requires cut < Span(feed, start, today)
    ensures Fill(feed, days, start, today, cut + 1)
            == Fill(feed, days, start, today, cut) + {Sessions(feed, start, today)[cut]}
  {
    hide CountBelow, Span;
    var rows := Sessions(feed, start, today);
    var more, less := set k | 0 <= k < cut + 1 :: rows[k], set k | 0 <= k < cut :: rows[k];
    assert rows[cut] in more;
    assert more == less + {rows[cut]};
  }

  lemma {:induction false} FillNothing(feed: seq<int>, days: Days, start: int, today: int)
    ensures Fill(feed, days, start, today, 0) == days
  {
  }

  lemma {:induction false} FillSaturates(feed: seq<int>, days: Days, start: int, today: int, i: nat, budget: nat)
    requires i <= budget && i <= Span(feed, start, today) && (i == budget || i == Span(feed, start, today))
    ensures Fill(feed, days, start, today, budget) == Fill(feed, days, start, today, i)
  {
  }

  /** What the planned windows leave one ticker: filled, cut, or not reached. */
  ghost predicate Window(feed: seq<int>, days: Days, days': Days, today: int, restate: int, bootstrap: int,
                         complete: bool) {
    var start := StartOf(days, today, restate, bootstrap);
    if complete then days' == Fill(feed, days, start, today, Span(feed, start, today))
    else Filled(feed, days, days', start, today)
  }

  lemma {:induction false} WindowUntouched(feed: seq<int>, days: Days, today: int, restate: int, bootstrap: int)
    ensures Window(feed, days, days, today, restate, bootstrap, false)
  {
    FillNothing(feed, days, StartOf(days, today, restate, bootstrap), today);
  }

  lemma {:induction false} WindowIsSwept(feed: seq<int>, days: Days, days': Days, today: int, restate: int,
                                         bootstrap: int, complete: bool)
    requires Window(feed, days, days', today, restate, bootstrap, complete)
    ensures Swept(feed, days, days', today, restate, bootstrap, complete)
  {
  }

  lemma {:induction false} RefetchIsSwept(feed: seq<int>, days: Days, all: Days, days': Days, today: int, restate: int,
                                          bootstrap: int, cut: nat)
    requires days != {} && Window(feed, days, all, today, restate, bootstrap, true)
    requires days' == Fill(feed, all, today - bootstrap, today, cut)
    ensures Swept(feed, days, days', today, restate, bootstrap, true)
  {
  }

  /** The bars table of one feed, in a process that dies after a given number of row writes. */
  class DailyBarStore {
    var rows: map<Ticker, Days>

    constructor ()
      ensures rows == map[]
    {
      rows := map[];
    }

    /** `upsert_bars` of one ticker's fetch, row by row; `finished` is false where the process died. */
    method UpsertBars(feed: seq<int>, t: Ticker, start: int, today: int, budget: nat)
        returns (left: nat, finished: bool)
      modifies this
      ensures DaysOf(rows, t) == Fill(feed, old(DaysOf(rows, t)), start, today, budget)
      ensures forall u: Ticker :: u != t ==> DaysOf(rows, u) == old(DaysOf(rows, u))
      ensures finished <==> budget >= Span(feed, start, today)
    {
      hide Fill, Sessions, Span;
      var bars := Sessions(feed, start, today);
      ghost var was := DaysOf(rows, t);
      FillNothing(feed, was, start, today);
      left := budget;
      var i := 0;
      while i < |bars| && left > 0
        invariant 0 <= i <= |bars| && left == budget - i
        invariant DaysOf(rows, t) == Fill(feed, was, start, today, i)
        invariant forall u: Ticker :: u != t ==> DaysOf(rows, u) == old(DaysOf(rows, u))
      {
        FillOneMore(feed, was, start, today, i);
        rows := rows[t := DaysOf(rows, t) + {bars[i]}];
        left, i := left - 1, i + 1;
      }
      FillSaturates(feed, was, start, today, i, budget);
      finished := i == |bars|;
    }

    /** `backfill_tickers`: one ticker after another; `at` is how many were filled before the process died. */
    method BackfillTickers(feeds: Ticker -> seq<int>, names: seq<Ticker>, start: int, today: int, budget: nat)
      returns (left: nat, finished: bool, at: nat, ghost cut: nat)
      requires Distinct(names)
      modifies this
      ensures at <= |names| && (finished <==> at == |names|)
      ensures forall k :: 0 <= k < |names| ==>
                var was, now := old(DaysOf(rows, names[k])), DaysOf(rows, names[k]);
                now == if k < at then Fill(feeds(names[k]), was, start, today, Span(feeds(names[k]), start, today))
                       else if k == at then Fill(feeds(names[k]), was, start, today, cut) else was
      ensures forall u: Ticker :: u !in names ==> DaysOf(rows, u) == old(DaysOf(rows, u))
    {
      hide Fill, Span;
      left, finished, at, cut := budget, true, 0, 0;
      while finished && at < |names|
        invariant at <= |names|
        invariant finished || at < |names|
        invariant forall k :: 0 <= k < |names| ==>
                    var was, now := old(DaysOf(rows, names[k])), DaysOf(rows, names[k]);
                    now == if k < at then Fill(feeds(names[k]), was, start, today, Span(feeds(names[k]), start, today))
                           else if k == at && !finished then Fill(feeds(names[k]), was, start, today, cut) else was
        invariant forall u: Ticker :: u !in names ==> DaysOf(rows, u) == old(DaysOf(rows, u))
        decreases finished, |names| - at
      {
        var t := names[at];
        ghost var was := DaysOf(rows, t);
        cut := left;
        left, finished := UpsertBars(feeds(t), t, start, today, left);
        if finished {
          FillSaturates(feeds(t), was, start, today, Span(feeds(t), start, today), cut);
          at := at + 1;
        }
      }
    }

    /** The windows of one sweep; `finished` is false where the process died. */
    method FillWindows(feeds: Ticker -> seq<int>, tickers: seq<Ticker>, today: int, restate: int, bootstrap: int,
                       budget: nat)
      returns (left: nat, finished: bool)
      requires Distinct(tickers)
      modifies this
      ensures forall t :: t in tickers ==>
                Window(feeds(t), old(DaysOf(rows, t)), DaysOf(rows, t), today, restate, bootstrap, finished)
                || (!finished && Window(feeds(t), old(DaysOf(rows, t)), DaysOf(rows, t), today, restate, bootstrap,
                                        true))
      ensures forall t: Ticker :: t !in tickers ==> DaysOf(rows, t) == old(DaysOf(rows, t))
    {
      hide StartOf, Window, Fill, Span, Sharing;
      ghost var stored := rows;
      var plans := PlanWindows(rows, tickers, today, restate, bootstrap);
      left, finished := budget, true;
      var p := 0;
      while p < |plans|
        invariant 0 <= p <= |plans| && finished
        invariant forall t :: t in tickers ==>
                    if Planned(plans[..p], StartOf(DaysOf(stored, t), today, restate, bootstrap))
                    then Window(feeds(t), DaysOf(stored, t), DaysOf(rows, t), today, restate, bootstrap, true)
                    else DaysOf(rows, t) == DaysOf(stored, t)
        invariant forall t: Ticker :: t !in tickers ==> DaysOf(rows, t) == DaysOf(stored, t)
      {
        var names := plans[p].tickers;
        ghost var start := plans[p].start;
        SharingIsDistinct(stored, tickers, today, restate, bootstrap, start);
        SharingIsFilter(stored, tickers, today, restate, bootstrap, start);
        NotYetPlanned(plans, p);
        ghost var before := rows;
        ghost var cut;
        var at;
        left, finished, at, cut := BackfillTickers(feeds, names, plans[p].start, today, left);
        forall t | t in tickers
          ensures if StartOf(DaysOf(stored, t), today, restate, bootstrap) == start
                  then Window(feeds(t), DaysOf(stored, t), DaysOf(rows, t), today, restate, bootstrap, true)
                       || (!finished && Window(feeds(t), DaysOf(stored, t), DaysOf(rows, t), today, restate, bootstrap,
                                               false))
                  else DaysOf(rows, t) == DaysOf(before, t)
        {
          if StartOf(DaysOf(stored, t), today, restate, bootstrap) == start {
            assert t in names;
            var k :| 0 <= k < |names| && names[k] == t;
            BackfilledIsWindow(feeds(t), DaysOf(stored, t), DaysOf(rows, t), today, restate, bootstrap, k, at, cut);
          }
        }
        if !finished {
          forall t | t in tickers
            ensures Window(feeds(t), DaysOf(stored, t), DaysOf(rows, t), today, restate, bootstrap, false)
                    || Window(feeds(t), DaysOf(stored, t), DaysOf(rows, t), today, restate, bootstrap, true)
          {
            WindowUntouched(feeds(t), DaysOf(stored, t), today, restate, bootstrap);
          }
          return;
        }
        PlannedOneMore(plans, p);
        p := p + 1;
      }
      assert plans[..p] == plans;
      forall t | t in tickers
        ensures Window(feeds(t), DaysOf(stored, t), DaysOf(rows, t), today, restate, bootstrap, true)
      {
        var i :| 0 <= i < |tickers| && tickers[i] == t;
        assert Planned(plans, StartOf(DaysOf(stored, tickers[i]), today, restate, bootstrap));
      }
    }

    /**
     `run_sweep`, in a process that dies after `budget` row writes; `restated` are the tickers whose settled closes
     it found changed. Each ticker undergoes what `Swept` allows; a sweep that completes fills every window.
     */
    method RunSweep(feeds: Ticker -> seq<int>, tickers: seq<Ticker>, today: int, restate: int, bootstrap: int,
                    budget: nat, restated: seq<Ticker>)
      returns (completed: bool)
      requires Distinct(tickers) && Distinct(restated)
      requires forall t :: t in restated ==> t in tickers && DaysOf(rows, t) != {}
      modifies this
      ensures forall t :: t in tickers ==>
                Swept(feeds(t), old(DaysOf(rows, t)), DaysOf(rows, t), today, restate, bootstrap, true)
                || (!completed && Swept(feeds(t), old(DaysOf(rows, t)), DaysOf(rows, t), today, restate, bootstrap,
                                        false))
      ensures forall t: Ticker :: t !in tickers ==> DaysOf(rows, t) == old(DaysOf(rows, t))
    {
      hide StartOf, Window, Swept, Fill, Span;
      ghost var stored := rows;
      var left, finished := FillWindows(feeds, tickers, today, restate, bootstrap, budget);
      ghost var filled := rows;
      if !finished {
        forall t | t in tickers
          ensures Swept(feeds(t), DaysOf(stored, t), DaysOf(rows, t), today, restate, bootstrap, true)
                  || Swept(feeds(t), DaysOf(stored, t), DaysOf(rows, t), today, restate, bootstrap, false)
        {
          var whole := Window(feeds(t), DaysOf(stored, t), DaysOf(rows, t), today, restate, bootstrap, true);
          WindowIsSwept(feeds(t), DaysOf(stored, t), DaysOf(rows, t), today, restate, bootstrap, whole);
        }
        return false;
      }
      ghost var cut;
      var at;
      left, completed, at, cut := BackfillTickers(feeds, restated, today - bootstrap, today, left);
      forall t | t in tickers
        ensures Swept(feeds(t), DaysOf(stored, t), DaysOf(rows, t), today, restate, bootstrap, true)
      {
        if t in restated {
          var k :| 0 <= k < |restated| && restated[k] == t;
          var n := if k < at then Span(feeds(t), today - bootstrap, today) else if k == at then cut else 0;
          FillNothing(feeds(t), DaysOf(filled, t), today - bootstrap, today);
          RefetchIsSwept(feeds(t), DaysOf(stored, t), DaysOf(filled, t), DaysOf(rows, t), today, restate, bootstrap, n);
        } else {
          WindowIsSwept(feeds(t), DaysOf(stored, t), DaysOf(rows, t), today, restate, bootstrap, true);
        }
      }
    }
  }

  lemma {:induction false} BackfilledIsWindow(feed: seq<int>, days: Days, days': Days, today: int, restate: int,
                                              bootstrap: int, k: nat, at: nat, cut: nat)
    requires var start := StartOf(days, today, restate, bootstrap);
             days' == if k < at then Fill(feed, days, start, today, Span(feed, start, today))
                      else if k == at then Fill(feed, days, start, today, cut) else days
    ensures Window(feed, days, days', today, restate, bootstrap, k < at)
  {
    WindowUntouched(feed, days, today, restate, bootstrap);
  }

  lemma {:induction false} NotYetPlanned(plans: seq<WindowPlan>, p: nat)
    requires p < |plans| && forall j, k :: 0 <= j < k < |plans| ==> plans[j].start < plans[k].start
    ensures !Planned(plans[..p], plans[p].start)
  {
  }

  lemma {:induction false} PlannedOneMore(plans: seq<WindowPlan>, p: nat)
    requires p < |plans|
    ensures forall s: int :: Planned(plans[..p + 1], s) <==> Planned(plans[..p], s) || s == plans[p].start
  {
    forall s: int ensures Planned(plans[..p + 1], s) <==> Planned(plans[..p], s) || s == plans[p].start {
      if Planned(plans[..p], s) {
        var k :| 0 <= k < p && plans[..p][k].start == s;
        assert plans[..p + 1][k].start == s;
      }
      assert plans[..p + 1][p].start == plans[p].start;
      if Planned(plans[..p + 1], s) && s != plans[p].start {
        var k :| 0 <= k < p + 1 && plans[..p + 1][k].start == s;
        assert plans[..p][k].start == s;
      }
    }
  }
}
