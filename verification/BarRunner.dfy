/**
 One bar of the archetype-bar experiment: the scoring loop with its two stops, and the rows it keeps
 (src/shrap/research/bar_experiment.py, src/shrap/research/bar_experiment_cli.py). The run id holds a single bar.
 What a completion returns, and what the meter reads, are inputs.
 */
module BarRunner {
  import opened Wrappers
  import opened QuotaGuard

  datatype Item = Item(id: string, source: string)

  /** What a completion gives: a parsed verdict, or the error it raised. */
  datatype Outcome = Scored(verdict: string) | Failed(error: string)

  datatype Call = Call(item: Item, outcome: Outcome)

  datatype End = Exhausted | OutOfQuota | TooManyErrors

  /** One polling of the guard: where, from which pacing state, and the interval it gave (zero when it stopped). */
  datatype Check = Check(at: nat, before: Paced, interval: nat)

  /** What a bar did: the calls made, the checks, and why it ended. */
  datatype Trace = Trace(calls: nat, checks: seq<Check>, end: End)

  datatype Meter = Meter(limits: Limits, reading: nat -> Option<Snapshot>)

  /** The loop from item `i` on. */
  function Bar(outcomes: seq<Outcome>, meter: Meter, maxErrors: int, i: nat, errors: nat, next: int,
               paced: Paced): Trace
    requires i <= |outcomes|
    decreases |outcomes| - i
  {
    if i == |outcomes| then Trace(i, [], Exhausted)
    else if i < next then Attempt(outcomes, meter, maxErrors, i, errors, next, paced)
    else
      var asked := Ask(meter.limits, paced, meter.reading(i), i);
      match asked.decision
      case Stop => Trace(i, [Check(i, paced, 0)], OutOfQuota)
      case Continue(after) =>
        var interval := if after > 1 then after else 1;
        var rest := Attempt(outcomes, meter, maxErrors, i, errors, i + interval, asked.paced);
        rest.(checks := [Check(i, paced, interval)] + rest.checks)
  }

  /** The call for item `i`, and the loop after it. */
  function Attempt(outcomes: seq<Outcome>, meter: Meter, maxErrors: int, i: nat, errors: nat, next: int,
                   paced: Paced): Trace
    requires i < |outcomes|
    decreases |outcomes| - i, 0
  {
    if outcomes[i].Scored? then Bar(outcomes, meter, maxErrors, i + 1, 0, next, paced)
    else if errors + 1 >= maxErrors then Trace(i + 1, [], TooManyErrors)
    else Bar(outcomes, meter, maxErrors, i + 1, errors + 1, next, paced)
  }

  /** `run_bar` over a whole item list, with its defaults. */
  function WholeBar(outcomes: seq<Outcome>, meter: Meter, paced: Paced): Trace {
    Bar(outcomes, meter, 5, 0, 0, CHECK_MIN, paced)
  }

  // ----- what the loop promises -----

  /** How many failures in a row end at call `n`. */
  function Trailing(outcomes: seq<Outcome>, n: nat): nat
    requires n <= |outcomes|
  {
    if n == 0 || outcomes[n - 1].Scored? then 0 else 1 + Trailing(outcomes, n - 1)
  }

  ghost predicate ErrorsStop(outcomes: seq<Outcome>, from: nat, t: Trace) {
    && from <= t.calls <= |outcomes|
    && (forall n :: from <= n < t.calls ==> Trailing(outcomes, n) < 5)
    && (t.end.TooManyErrors? <==> Trailing(outcomes, t.calls) == 5)
    && Trailing(outcomes, t.calls) <= 5
    && (t.end.Exhausted? ==> t.calls == |outcomes|)
  }

  lemma {:induction false} BarStopsOnErrors(outcomes: seq<Outcome>, meter: Meter, i: nat, errors: nat, next: int,
                                            paced: Paced)
    requires i <= |outcomes| && errors == Trailing(outcomes, i) < 5
    ensures ErrorsStop(outcomes, i, Bar(outcomes, meter, 5, i, errors, next, paced))
    decreases |outcomes| - i, 1
  {
    hide Ask;
    if i < |outcomes| {
      var asked := Ask(meter.limits, paced, meter.reading(i), i);
      if i < next {
        AttemptStopsOnErrors(outcomes, meter, i, errors, next, paced);
      } else if asked.decision.Continue? {
        var after := asked.decision.nextCheckAfter;
        AttemptStopsOnErrors(outcomes, meter, i, errors, i + if after > 1 then after else 1, asked.paced);
      }
    }
  }

  lemma {:induction false} AttemptStopsOnErrors(outcomes: seq<Outcome>, meter: Meter, i: nat, errors: nat, next: int,
                                                paced: Paced)
    requires i < |outcomes| && errors == Trailing(outcomes, i) < 5
    ensures ErrorsStop(outcomes, i, Attempt(outcomes, meter, 5, i, errors, next, paced))
    decreases |outcomes| - i, 0
  {
    hide Bar;
    if outcomes[i].Scored? {
      BarStopsOnErrors(outcomes, meter, i + 1, 0, next, paced);
    } else if errors + 1 < 5 {
      BarStopsOnErrors(outcomes, meter, i + 1, errors + 1, next, paced);
    }
  }

  /** The checks of the loop from `i` on: where each was due, and the pacing state each left to the next. */
  ghost predicate Chained(meter: Meter, t: Trace, next: int, paced: Paced) {
    && (t.checks != [] ==> t.checks[0].at <= t.calls && t.checks[0].before == paced)
    && (forall k :: 0 <= k < |t.checks| ==> ChecksItsReading(meter, t.checks[k]))
    && (forall k :: 0 <= k < |t.checks| - 1 ==>
          && t.checks[k + 1].at == t.checks[k].at + t.checks[k].interval
          && t.checks[k + 1].before
             == Ask(meter.limits, t.checks[k].before, meter.reading(t.checks[k].at), t.checks[k].at).paced)
  }

  ghost predicate ChecksItsReading(meter: Meter, c: Check) {
    var d := Ask(meter.limits, c.before, meter.reading(c.at), c.at).decision;
    if d.Stop? then c.interval == 0 else c.interval == d.nextCheckAfter && CHECK_MIN <= c.interval <= CHECK_MAX
  }

  /** The next check is made as soon as it is due, so calls never run past it. */
  ghost predicate NeverUnchecked(t: Trace, i: nat, next: nat) {
    && (t.checks == [] ==> t.calls <= next)
    && (t.checks != [] ==> t.checks[0].at == next
                           && var last := t.checks[|t.checks| - 1]; t.calls <= last.at + last.interval)
  }

  lemma {:induction false} BarIsChecked(outcomes: seq<Outcome>, meter: Meter, i: nat, errors: nat, next: nat,
                                        paced: Paced)
    requires i <= |outcomes| && i <= next
    ensures var t := Bar(outcomes, meter, 5, i, errors, next, paced);
            i <= t.calls && Chained(meter, t, next, paced) && NeverUnchecked(t, i, next)
    decreases |outcomes| - i, 1
  {
    hide Ask, Attempt;
    if i < |outcomes| {
      if i < next {
        AttemptIsChecked(outcomes, meter, i, errors, next, paced);
      } else {
        var asked := Ask(meter.limits, paced, meter.reading(i), i);
        NextCheckIsNear(meter.limits, paced, meter.reading(i), i);
        if asked.decision.Continue? {
          var interval := asked.decision.nextCheckAfter;
          AttemptIsChecked(outcomes, meter, i, errors, i + interval, asked.paced);
          var rest := Attempt(outcomes, meter, 5, i, errors, i + interval, asked.paced);
          ChainOneMore(meter, rest, i, interval, paced);
        }
      }
    }
  }

  lemma {:induction false} ChainOneMore(meter: Meter, rest: Trace, i: nat, interval: nat, paced: Paced)
    requires var asked := Ask(meter.limits, paced, meter.reading(i), i);
             && asked.decision == Continue(interval) && CHECK_MIN <= interval <= CHECK_MAX && i <= rest.calls
             && Chained(meter, rest, i + interval, asked.paced) && NeverUnchecked(rest, i, i + interval)
    ensures var t := rest.(checks := [Check(i, paced, interval)] + rest.checks);
            Chained(meter, t, i, paced) && NeverUnchecked(t, i, i)
  {
    hide Ask;
    var t := rest.(checks := [Check(i, paced, interval)] + rest.checks);
    forall k | 0 <= k < |t.checks| - 1
      ensures t.checks[k + 1].at == t.checks[k].at + t.checks[k].interval
              && t.checks[k + 1].before
                 == Ask(meter.limits, t.checks[k].before, meter.reading(t.checks[k].at), t.checks[k].at).paced
    {
      if k > 0 {
        assert t.checks[k] == rest.checks[k - 1] && t.checks[k + 1] == rest.checks[k];
      }
    }
    assert rest.checks != [] ==> t.checks[|t.checks| - 1] == rest.checks[|rest.checks| - 1];
  }

  lemma {:induction false} AttemptIsChecked(outcomes: seq<Outcome>, meter: Meter, i: nat, errors: nat, next: nat,
                                            paced: Paced)
    requires i < |outcomes| && i < next
    ensures var t := Attempt(outcomes, meter, 5, i, errors, next, paced);
            i <= t.calls && Chained(meter, t, next, paced) && NeverUnchecked(t, i, next)
    decreases |outcomes| - i, 0
  {
    hide Ask, Bar;
    if outcomes[i].Scored? {
      BarIsChecked(outcomes, meter, i + 1, 0, next, paced);
    } else if errors + 1 < 5 {
      BarIsChecked(outcomes, meter, i + 1, errors + 1, next, paced);
    }
  }

  /**
   Calls are made for a prefix of the items; the loop stops at the fifth consecutive error and at no earlier run;
   the first check falls at item 10, successive checks are 10 to 100 items apart, each starting from the pacing
   state the one before left, and no more than 100 calls follow the last one.
   */
  lemma {:induction false} BarContract(outcomes: seq<Outcome>, meter: Meter, paced: Paced)
    ensures var t := WholeBar(outcomes, meter, paced);
            && ErrorsStop(outcomes, 0, t)
            && Chained(meter, t, CHECK_MIN, paced)
            && (forall k :: 0 <= k < |t.checks| - 1 ==> CHECK_MIN <= t.checks[k + 1].at - t.checks[k].at <= CHECK_MAX)
            && (if t.checks == [] then t.calls <= CHECK_MIN
                else t.checks[0].at == CHECK_MIN && t.calls <= t.checks[|t.checks| - 1].at + CHECK_MAX)
  {
    hide Bar, Ask;
    BarStopsOnErrors(outcomes, meter, 0, 0, CHECK_MIN, paced);
    BarIsChecked(outcomes, meter, 0, 0, CHECK_MIN, paced);
    var t := WholeBar(outcomes, meter, paced);
    forall k | 0 <= k < |t.checks| - 1 ensures CHECK_MIN <= t.checks[k + 1].at - t.checks[k].at <= CHECK_MAX {
      assert ChecksItsReading(meter, t.checks[k]);
      StoppedIsLast(outcomes, meter, 0, 0, CHECK_MIN, paced, k);
    }
  }

  /** Only the last check can be the one that stopped the bar. */
  lemma {:induction false} StoppedIsLast(outcomes: seq<Outcome>, meter: Meter, i: nat, errors: nat, next: nat,
                                         paced: Paced, k: nat)
    requires i <= |outcomes| && i <= next
    requires k + 1 < |Bar(outcomes, meter, 5, i, errors, next, paced).checks|
    ensures Bar(outcomes, meter, 5, i, errors, next, paced).checks[k].interval != 0
    decreases |outcomes| - i
  {
    hide Ask;
    if i < next {
      StoppedIsLast(outcomes, meter, i + 1, if outcomes[i].Scored? then 0 else errors + 1, next, paced, k);
    } else if k > 0 {
      var asked := Ask(meter.limits, paced, meter.reading(i), i);
      var after := asked.decision.nextCheckAfter;
      var next' := i + if after > 1 then after else 1;
      StoppedIsLast(outcomes, meter, i + 1, if outcomes[i].Scored? then 0 else errors + 1, next', asked.paced, k - 1);
    }
  }

  // ----- what the checks keep usage below -----

  /** The meter, where it is readable, shows the account's usage after `i` items. */
  ghost predicate Honest(meter: Meter, usage: nat -> real) {
    forall i :: Reading(meter.reading(i)).Some? ==> Reading(meter.reading(i)).value == usage(i)
  }

  /** The check read the meter and saw a cost, and no item up to the next check cost more than twice that. */
  ghost predicate Paces(meter: Meter, usage: nat -> real, c: Check) {
    && !meter.limits.ignoreQuota && Reading(meter.reading(c.at)).Some?
    && Implied(c.before, usage(c.at), c.at, meter.limits.reserve).Some?
    && EachCostsAtMost(usage, c.at, c.at + c.interval, 2.0 * Average(c.before, usage(c.at), c.at))
  }

  lemma {:induction false} CheckBounds(meter: Meter, usage: nat -> real, c: Check, n: nat)
    requires Honest(meter, usage) && ChecksItsReading(meter, c) && c.interval > 0 && Paces(meter, usage, c)
    requires c.at <= n <= c.at + c.interval
    ensures usage(n) <= Ceiling(c.before, usage(c.at), c.at, meter.limits.reserve)
  {
    hide Ask, Implied, Average, Ceiling, EachCostsAtMost;
    GuardHolds(meter.limits, c.before, meter.reading(c.at), c.at, usage, n);
  }

  /** The check that covers item `n`: the last one made before it that let the bar go on. */
  lemma {:induction false} Covered(meter: Meter, t: Trace, next: nat, paced: Paced, n: nat) returns (k: nat)
    requires Chained(meter, t, next, paced) && NeverUnchecked(t, 0, next) && next < n <= t.calls
    ensures k < |t.checks| && t.checks[k].interval > 0 && t.checks[k].at <= n <= t.checks[k].at + t.checks[k].interval
  {
    k := |t.checks| - 1;
    while t.checks[k].at >= n
      invariant 0 <= k < |t.checks| && n <= t.checks[k].at + t.checks[k].interval
      decreases k
    {
      k := k - 1;
    }
  }

  /**
   A whole bar against an honest meter: if every check that let it go on was readable, saw a cost, and was followed by
   no item above twice that cost, then usage after each item past the first check is below the ceiling of the
   check before it: 1 - reserve, or its reading and 20 averages where the implied interval is below 10.
   */
  lemma {:induction false} BarStaysUnderCeiling(outcomes: seq<Outcome>, meter: Meter, paced: Paced, usage: nat -> real,
                                                n: nat)
      returns (k: nat)
    requires Honest(meter, usage)
    requires forall c <- WholeBar(outcomes, meter, paced).checks :: c.interval > 0 ==> Paces(meter, usage, c)
    requires CHECK_MIN < n <= WholeBar(outcomes, meter, paced).calls
    ensures var t := WholeBar(outcomes, meter, paced);
            && k < |t.checks| && Paces(meter, usage, t.checks[k])
            && t.checks[k].at <= n <= t.checks[k].at + t.checks[k].interval
            && usage(t.checks[k].at) < 1.0 - meter.limits.reserve
            && usage(n) <= Ceiling(t.checks[k].before, usage(t.checks[k].at), t.checks[k].at, meter.limits.reserve)
  {
    hide Bar, Paces, Implied, Average;
    BarIsChecked(outcomes, meter, 0, 0, CHECK_MIN, paced);
    var t := WholeBar(outcomes, meter, paced);
    k := Covered(meter, t, CHECK_MIN, paced, n);
    assert t.checks[k] in t.checks && ChecksItsReading(meter, t.checks[k]);
    CheckBounds(meter, usage, t.checks[k], n);
    ReadingHadRoom(meter, usage, t.checks[k]);
  }

  lemma {:induction false} ReadingHadRoom(meter: Meter, usage: nat -> real, c: Check)
    requires Honest(meter, usage) && ChecksItsReading(meter, c) && c.interval > 0 && Paces(meter, usage, c)
    ensures usage(c.at) < 1.0 - meter.limits.reserve
  {
    StopsExactly(meter.limits, c.before, meter.reading(c.at), c.at);
  }

  /** `run_bar`; the pacing state is the guard's own. */
  method RunBar(items: seq<Item>, outcomes: seq<Outcome>, meter: Meter, guard: BudgetGuard) returns (calls: seq<Call>)
    requires |outcomes| == |items| && guard.limits == meter.limits
    modifies guard
    ensures |calls| == WholeBar(outcomes, meter, old(guard.paced)).calls <= |items|
    ensures forall k :: 0 <= k < |calls| ==> calls[k] == Call(items[k], outcomes[k])
  {
    hide Ask;
    calls := [];
    var errors, next, i := 0, CHECK_MIN, 0;
    ghost var goal := WholeBar(outcomes, meter, guard.paced).calls;
    while i < |items|
      invariant 0 <= i <= |items| && |calls| == i && errors >= 0
      invariant forall k :: 0 <= k < i ==> calls[k] == Call(items[k], outcomes[k])
      invariant Bar(outcomes, meter, 5, i, errors, next, guard.paced).calls == goal
    {
      if i >= next {
        var decision := guard.StillWithinBudget(meter.reading(i), i);
        if decision.Stop? {
          return;
        }
        next := i + if decision.nextCheckAfter > 1 then decision.nextCheckAfter else 1;
      }
      assert Attempt(outcomes, meter, 5, i, errors, next, guard.paced).calls == goal;
      calls := calls + [Call(items[i], outcomes[i])];
      if outcomes[i].Failed? {
        errors := errors + 1;
        if errors >= 5 {
          return;
        }
      } else {
        errors := 0;
      }
      i := i + 1;
    }
  }

  // ----- the rows a run keeps -----

  /** One run's rows, by item. */
  type Table = map<string, Outcome>

  /** `INSERT_RESULT_SQL`: a row with a verdict is left as recorded. */
  function Record(t: Table, c: Call): Table {
    if c.item.id in t && t[c.item.id].Scored? then t else t[c.item.id := c.outcome]
  }

  function RecordAll(t: Table, calls: seq<Call>): Table {
    if calls == [] then t else Record(RecordAll(t, calls[..|calls| - 1]), calls[|calls| - 1])
  }

  /** `persist_results`: one transaction over the bar's calls. */
  method PersistResults(table: Table, calls: seq<Call>) returns (t: Table)
    ensures t == RecordAll(table, calls)
  {
    t := table;
    var i := 0;
    while i < |calls|
      invariant 0 <= i <= |calls| && t == RecordAll(table, calls[..i])
    {
      assert calls[..i + 1][..i] == calls[..i];
      t := Record(t, calls[i]);
      i := i + 1;
    }
    assert calls[..i] == calls;
  }

  /** The items a run holds a verdict for (`SELECT_RUN_SCORED_ITEM_IDS_SQL`). */
  function Verdicts(t: Table): set<string> {
    set id | id in t && t[id].Scored?
  }

  /** The items a run recorded an error for (`SELECT_RUN_ERROR_ITEM_IDS_SQL`). */
  function Errors(t: Table): set<string> {
    set id | id in t && t[id].Failed?
  }

  ghost predicate VerdictsKept(t: Table, t': Table) {
    forall id :: id in t && t[id].Scored? ==> id in t' && t'[id] == t[id]
  }

  ghost predicate ScoredIn(calls: seq<Call>, id: string) {
    exists k :: 0 <= k < |calls| && calls[k].outcome.Scored? && calls[k].item.id == id
  }

  lemma {:induction false} RecordAllKeeps(t: Table, calls: seq<Call>)
    ensures VerdictsKept(t, RecordAll(t, calls))
    ensures forall id: string :: id in Verdicts(RecordAll(t, calls)) <==> id in Verdicts(t) || ScoredIn(calls, id)
  {
    if calls != [] {
      var before, last := calls[..|calls| - 1], calls[|calls| - 1];
      RecordAllKeeps(t, before);
      forall id: string
        ensures ScoredIn(calls, id) <==> ScoredIn(before, id) || (last.outcome.Scored? && last.item.id == id)
      {
        if ScoredIn(before, id) {
          var k :| 0 <= k < |before| && before[k].outcome.Scored? && before[k].item.id == id;
          assert calls[k] == before[k];
        }
        if last.outcome.Scored? && last.item.id == id {
          assert calls[|calls| - 1] == last;
        }
      }
    }
  }

  // ----- choosing the items -----

  datatype Refusal = NothingToReplay | NothingToResume | AlreadyCovered | UnknownSource

  /** `[item for item in items if item.item_id in replay]`. */
  function Kept(corpus: seq<Item>, ids: set<string>): seq<Item> {
    if corpus == [] then [] else (if corpus[0].id in ids then [corpus[0]] else []) + Kept(corpus[1..], ids)
  }

  function FromSources(items: seq<Item>, wanted: set<string>): seq<Item> {
    if items == [] then [] else (if items[0].source in wanted then [items[0]] else []) + FromSources(items[1..], wanted)
  }

  /** No item comes from this source. */
  predicate NoneFrom(items: seq<Item>, source: string) {
    forall k :: 0 <= k < |items| ==> items[k].source != source
  }

  /** `load_corpus` without a sample limit; a run that does not exist has no rows. */
  function Load(corpus: seq<Item>, from: Option<Table>, resume: Option<Table>,
                sources: Option<set<string>>): Result<seq<Item>, Refusal> {
    if from.Some? && from.value == map[] then Err(NothingToReplay)
    else if from.None? && resume.Some? && Errors(resume.value) == {} then Err(NothingToResume)
    else
      var outstanding := if from.Some? && resume.Some? then from.value.Keys - Verdicts(resume.value)
                         else if from.Some? then from.value.Keys
                         else if resume.Some? then Errors(resume.value) else {};
      if from.Some? && resume.Some? && outstanding == {} then Err(AlreadyCovered)
      else
        var items := if from.Some? || resume.Some? then Kept(corpus, outstanding) else corpus;
        if sources.None? then Ok(items)
        else if exists s :: s in sources.value && NoneFrom(items, s) then Err(UnknownSource)
        else Ok(FromSources(items, sources.value))
  }

  ghost predicate Distinct(items: seq<Item>) {
    forall j, k :: 0 <= j < k < |items| ==> items[j].id != items[k].id
  }

  lemma {:induction false} KeptIsFilter(corpus: seq<Item>, ids: set<string>)
    requires Distinct(corpus)
    ensures Distinct(Kept(corpus, ids))
    ensures forall item: Item :: item in Kept(corpus, ids) <==> item in corpus && item.id in ids
  {
    if corpus != [] {
      KeptIsFilter(corpus[1..], ids);
    }
  }

  lemma {:induction false} NothingLeft(a: set<string>, b: set<string>)
    ensures a - b == {} <==> a <= b
  {
    if a - b == {} {
      forall x | x in a ensures x in b {
        assert x in b || x in a - b;
      }
    }
  }

  /** What the selectors, the source filter aside, ask for. */
  ghost predicate Wanted(from: Option<Table>, resume: Option<Table>, id: string) {
    && (from.Some? ==> id in from.value)
    && (resume.Some? ==> if from.Some? then id !in Verdicts(resume.value) else id in Errors(resume.value))
  }

  lemma {:induction false} SourcesAreFilter(items: seq<Item>, wanted: set<string>)
    requires Distinct(items)
    ensures Distinct(FromSources(items, wanted))
    ensures forall item: Item :: item in FromSources(items, wanted) <==> item in items && item.source in wanted
  {
    if items != [] {
      SourcesAreFilter(items[1..], wanted);
    }
  }

  /** Whatever the selectors, the items loaded are exactly the corpus items they ask for, each once. */
  lemma {:induction false} LoadSelects(corpus: seq<Item>, from: Option<Table>, resume: Option<Table>,
                                       sources: Option<set<string>>)
    requires Distinct(corpus)
    ensures var r := Load(corpus, from, resume, sources);
            r.Ok? ==> Distinct(r.value)
                      && forall item: Item :: item in r.value <==>
                           item in corpus && Wanted(from, resume, item.id)
                           && (sources.Some? ==> item.source in sources.value)
  {
    var outstanding := if from.Some? && resume.Some? then from.value.Keys - Verdicts(resume.value)
                       else if from.Some? then from.value.Keys
                       else if resume.Some? then Errors(resume.value) else {};
    KeptIsFilter(corpus, outstanding);
    if sources.Some? {
      SourcesAreFilter(if from.Some? || resume.Some? then Kept(corpus, outstanding) else corpus, sources.value);
    }
  }

  /** No item of the corpus that is asked for comes from this source. */
  ghost predicate Unserved(corpus: seq<Item>, from: Option<Table>, resume: Option<Table>, source: string) {
    forall item <- corpus :: Wanted(from, resume, item.id) ==> item.source != source
  }

  /**
   The refusals, in their order: an empty run to replay; a run to resume without an error and nothing to replay; a
   replay wholly judged already; a source that none of the items asked for comes from.
   */
  lemma {:induction false} RefusesExactly(corpus: seq<Item>, from: Option<Table>, resume: Option<Table>,
                                          sources: Option<set<string>>)
    requires Distinct(corpus)
    ensures var r := Load(corpus, from, resume, sources);
            var empty := from == Some(map[]);
            var faultless := from.None? && resume.Some? && forall id :: id in resume.value ==> resume.value[id].Scored?;
            var judged := from.Some? && resume.Some? && !empty && from.value.Keys <= Verdicts(resume.value);
            && (r == Err(NothingToReplay) <==> empty)
            && (r == Err(NothingToResume) <==> faultless)
            && (r == Err(AlreadyCovered) <==> judged)
            && (r == Err(UnknownSource) <==>
                  !empty && !faultless && !judged && sources.Some?
                  && exists s :: s in sources.value && Unserved(corpus, from, resume, s))
  {
    hide Kept, FromSources, Wanted, Unserved, Verdicts, Errors, Distinct, NoneFrom;
    var outstanding := if from.Some? && resume.Some? then from.value.Keys - Verdicts(resume.value)
                       else if from.Some? then from.value.Keys
                       else if resume.Some? then Errors(resume.value) else {};
    if from.Some? && resume.Some? {
      NothingLeft(from.value.Keys, Verdicts(resume.value));
    }
    if resume.Some? {
      NoErrors(resume.value);
    }
    forall s ensures Unserved(corpus, from, resume, s) <==>
                       NoneFrom(if from.Some? || resume.Some? then Kept(corpus, outstanding) else corpus, s)
    {
      ServedByItems(corpus, from, resume, outstanding, s);
    }
  }

  lemma {:induction false} ServedByItems(corpus: seq<Item>, from: Option<Table>, resume: Option<Table>,
                                         outstanding: set<string>, s: string)
    requires Distinct(corpus)
    requires outstanding == if from.Some? && resume.Some? then from.value.Keys - Verdicts(resume.value)
                            else if from.Some? then from.value.Keys
                            else if resume.Some? then Errors(resume.value) else {}
    ensures Unserved(corpus, from, resume, s)
            <==> NoneFrom(if from.Some? || resume.Some? then Kept(corpus, outstanding) else corpus, s)
  {
    hide Kept, Distinct;
    KeptIsFilter(corpus, outstanding);
    var items := if from.Some? || resume.Some? then Kept(corpus, outstanding) else corpus;
    if NoneFrom(items, s) {
      forall item <- corpus | Wanted(from, resume, item.id) ensures item.source != s {
        assert item in items;
      }
    } else {
      var k :| 0 <= k < |items| && items[k].source == s;
      assert items[k] in corpus && Wanted(from, resume, items[k].id);
    }
  }

  lemma {:induction false} NoErrors(t: Table)
    ensures Errors(t) == {} <==> forall id :: id in t ==> t[id].Scored?
  {
    if Errors(t) == {} {
      forall id | id in t ensures t[id].Scored? {
        assert id !in Errors(t);
      }
    }
  }

  /**
   Replaying a target run into the run being resumed selects exactly the target's items, still in the corpus, that
   have no verdict yet, each once; it is refused exactly when the target is empty or wholly judged.
   */
  lemma {:induction false} ReplayResumesTheRest(corpus: seq<Item>, target: Table, held: Table)
    requires Distinct(corpus)
    ensures var r := Load(corpus, Some(target), Some(held), None);
            && (r.Err? <==> target.Keys <= Verdicts(held))
            && (r.Ok? ==> Distinct(r.value)
                          && forall item: Item :: item in r.value <==>
                               item in corpus && item.id in target && item.id !in Verdicts(held))
  {
    KeptIsFilter(corpus, target.Keys - Verdicts(held));
    assert target == map[] ==> target.Keys == {};
    NothingLeft(target.Keys, Verdicts(held));
  }

  // ----- a history of passes -----

  /** One pass into the run: which items it loaded, what each call gave, and whether it lived to persist them. */
  datatype Pass = Pass(items: seq<Item>, outcomes: seq<Outcome>, meter: Meter, paced: Paced, persisted: bool)

  function CallsOf(p: Pass): seq<Call> {
    if |p.outcomes| != |p.items| then []
    else
      var n := WholeBar(p.outcomes, p.meter, p.paced).calls;
      if n <= |p.items| then seq(n, k requires 0 <= k < n => Call(p.items[k], p.outcomes[k])) else []
  }

  function Passed(t: Table, p: Pass): Table {
    if p.persisted then RecordAll(t, CallsOf(p)) else t
  }

  function History(t: Table, passes: seq<Pass>): Table
    decreases |passes|
  {
    if passes == [] then t else History(Passed(t, passes[0]), passes[1..])
  }

  /** Over any sequence of passes, resumed, stopped or lost, a recorded verdict never changes and none is dropped. */
  lemma {:induction false} VerdictsAreFinal(t: Table, passes: seq<Pass>)
    ensures VerdictsKept(t, History(t, passes)) && Verdicts(t) <= Verdicts(History(t, passes))
    decreases |passes|
  {
    hide CallsOf, RecordAll;
    if passes != [] {
      RecordAllKeeps(t, CallsOf(passes[0]));
      assert Verdicts(t) <= Verdicts(Passed(t, passes[0]));
      VerdictsAreFinal(Passed(t, passes[0]), passes[1..]);
    }
  }

  /** A combined replay-and-resume pass in which every call succeeds and quota lasts leaves nothing outstanding. */
  lemma {:induction false} CleanPassFinishes(corpus: seq<Item>, target: Table, held: Table, p: Pass)
    requires Distinct(corpus) && p.persisted && |p.outcomes| == |p.items|
    requires Load(corpus, Some(target), Some(held), None) == Ok(p.items)
    requires forall k :: 0 <= k < |p.outcomes| ==> p.outcomes[k].Scored?
    requires !WholeBar(p.outcomes, p.meter, p.paced).end.OutOfQuota?
    ensures |CallsOf(p)| == |p.items|
    ensures forall item: Item :: item in corpus && item.id in target ==> item.id in Verdicts(Passed(held, p))
  {
    hide WholeBar, RecordAll;
    BarContract(p.outcomes, p.meter, p.paced);
    NoFailures(p.outcomes, |p.outcomes|);
    var t := WholeBar(p.outcomes, p.meter, p.paced);
    NoFailures(p.outcomes, t.calls);
    assert t.end.Exhausted?;
    ReplayResumesTheRest(corpus, target, held);
    RecordAllKeeps(held, CallsOf(p));
    forall item: Item | item in corpus && item.id in target ensures item.id in Verdicts(Passed(held, p)) {
      if item.id !in Verdicts(held) {
        var k :| 0 <= k < |p.items| && p.items[k] == item;
        assert CallsOf(p)[k].item == item;
        assert ScoredIn(CallsOf(p), item.id);
      }
    }
  }

  lemma {:induction false} NoFailures(outcomes: seq<Outcome>, n: nat)
    requires n <= |outcomes| && forall k :: 0 <= k < |outcomes| ==> outcomes[k].Scored?
    ensures Trailing(outcomes, n) == 0
  {
  }
}
