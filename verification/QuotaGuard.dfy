/**
 The shared-quota guard: read the meter, refuse inside the reserve, and pace the next reading from the observed
 cost of an item (src/shrap/llm/ollama_usage.py, src/shrap/research/bar_experiment_cli.py). Usage is `real`, a
 fraction of the allowance.
 */
module QuotaGuard {
  import opened Wrappers

  const CHECK_MIN := 10
  const CHECK_MAX := 100
  const SAFETY := 0.5

  /** One reading of the account's two windows; each may be missing. */
  datatype Snapshot = Snapshot(session: Option<real>, weekly: Option<real>)

  /** `UsageSnapshot.binding`: the usage of the window closest to full. */
  function Binding(s: Snapshot): (b: Option<real>)
    ensures b.None? <==> s.session.None? && s.weekly.None?
    ensures b.Some? ==> (s.session == b || s.weekly == b)
                        && (s.session.Some? ==> s.session.value <= b.value)
                        && (s.weekly.Some? ==> s.weekly.value <= b.value)
  {
    match (s.session, s.weekly)
    case (Some(a), Some(w)) => if w > a then Some(w) else Some(a)
    case (Some(a), None) => Some(a)
    case (None, w) => w
  }

  /** `headroom`. */
  function Headroom(usage: real, reserve: real): (h: real)
    ensures h >= 0.0 && (h > 0.0 <==> usage < 1.0 - reserve) && (h > 0.0 ==> h + reserve + usage == 1.0)
  {
    if 1.0 - usage - reserve > 0.0 then 1.0 - usage - reserve else 0.0
  }

  /** What the guard can read: nothing, no window, or the binding usage. */
  function Reading(live: Option<Snapshot>): Option<real> {
    if live.None? then None else Binding(live.value)
  }

  /** `check_budget(...).ok`. */
  predicate BudgetOk(live: Option<Snapshot>, reserve: real) {
    Reading(live).None? || Headroom(Reading(live).value, reserve) > 0.0
  }

  /** The pacing state: the usage and item count of the last reading, if there was one. */
  datatype Paced = Paced(usage: real, items: nat, seen: bool)

  datatype Decision = Stop | Continue(nextCheckAfter: int)

  datatype Asked = Asked(decision: Decision, paced: Paced)

  datatype Limits = Limits(reserve: real, ignoreQuota: bool)

  /** The interval the observed cost implies, before it is clamped; None without a usable cost. */
  function Implied(p: Paced, usage: real, scored: nat, reserve: real): Option<int> {
    if p.seen && scored > p.items && usage > p.usage
    then Some((Headroom(usage, reserve) / ((usage - p.usage) / (scored - p.items) as real) * SAFETY).Floor)
    else None
  }

  function Clamp(stride: int): (r: int)
    ensures CHECK_MIN <= r <= CHECK_MAX
    ensures CHECK_MIN <= stride <= CHECK_MAX ==> r == stride
  {
    var low := if stride < CHECK_MAX then stride else CHECK_MAX;
    if low > CHECK_MIN then low else CHECK_MIN
  }

  /** `still_within_budget`. */
  function Ask(l: Limits, p: Paced, live: Option<Snapshot>, scored: nat): Asked {
    if l.ignoreQuota then Asked(Continue(CHECK_MAX), p)
    else if !BudgetOk(live, l.reserve) then Asked(Stop, p)
    else
      match Reading(live)
      case None => Asked(Continue(CHECK_MIN), p)
      case Some(usage) =>
        var implied := Implied(p, usage, scored, l.reserve);
        Asked(Continue(Clamp(if implied.Some? then implied.value else CHECK_MAX)), Paced(usage, scored, true))
  }

  /** Usage per item since the last reading. */
  function Average(p: Paced, usage: real, scored: nat): real
    requires scored > p.items
  {
    (usage - p.usage) / (scored - p.items) as real
  }

  lemma {:induction false} FloorBelow(x: real)
    ensures x.Floor as real <= x
  {
  }

  lemma {:induction false} HalfHeadroom(h: real, avg: real)
    requires avg > 0.0 && h >= 0.0
    ensures (h / avg * SAFETY).Floor as real * (2.0 * avg) <= h
  {
    var x := h / avg * SAFETY;
    FloorBelow(x);
    assert x * (2.0 * avg) == h by {
      assert h / avg * avg == h;
    }
    ScaleDown(x.Floor as real, x, 2.0 * avg);
  }

  lemma {:induction false} ScaleDown(a: real, b: real, c: real)
    requires a <= b && c >= 0.0
    ensures a * c <= b * c
  {
  }

  lemma {:induction false} PositiveAverage(rise: real, items: real)
    requires rise > 0.0 && items > 0.0
    ensures rise / items > 0.0
  {
  }

  /** Item `j` cost at most `each`; `usage(j)` is the account's usage after `j` items. */
  ghost predicate CostsAtMost(usage: nat -> real, j: nat, each: real) {
    usage(j + 1) - usage(j) <= each
  }

  ghost predicate EachCostsAtMost(usage: nat -> real, from: nat, upto: int, each: real) {
    forall j: nat :: from <= j < upto ==> CostsAtMost(usage, j, each)
  }

  lemma {:induction false} Climbs(usage: nat -> real, from: nat, upto: nat, each: real)
    requires from <= upto && EachCostsAtMost(usage, from, upto, each)
    ensures usage(upto) <= usage(from) + (upto - from) as real * each
    decreases upto - from
  {
    if from < upto {
      Climbs(usage, from, upto - 1, each);
      assert CostsAtMost(usage, upto - 1, each);
      assert (upto - from) as real * each == (upto - 1 - from) as real * each + each;
    }
  }

  /** What usage may climb to before the next check, where a cost was observed: the reserve, or 20 averages more. */
  function Ceiling(p: Paced, usage: real, scored: nat, reserve: real): real
    requires Implied(p, usage, scored, reserve).Some?
  {
    if Implied(p, usage, scored, reserve).value >= CHECK_MIN then 1.0 - reserve
    else usage + 20.0 * Average(p, usage, scored)
  }

  /**
   When the meter is readable at a check and a cost was observed since the last reading: if no item before the
   next check costs more than twice that average, usage after each of them is at most 1 - reserve where the implied
   interval is at least 10, and otherwise exceeds this reading by at most 20 times the average.
   */
  lemma {:induction false} GuardHolds(l: Limits, p: Paced, live: Option<Snapshot>, scored: nat, usage: nat -> real,
                                      n: nat)
    requires !l.ignoreQuota && Reading(live) == Some(usage(scored))
    requires Implied(p, usage(scored), scored, l.reserve).Some?
    requires Ask(l, p, live, scored).decision.Continue?
    requires scored <= n <= scored + Ask(l, p, live, scored).decision.nextCheckAfter
    requires EachCostsAtMost(usage, scored, scored + Ask(l, p, live, scored).decision.nextCheckAfter,
                             2.0 * Average(p, usage(scored), scored))
    ensures usage(n) <= Ceiling(p, usage(scored), scored, l.reserve)
  {
    var now := usage(scored);
    var avg, implied := Average(p, now, scored), Implied(p, now, scored, l.reserve).value;
    PositiveAverage(now - p.usage, (scored - p.items) as real);
    Climbs(usage, scored, n, 2.0 * avg);
    WithinStride(n - scored, Clamp(implied), avg, now, l.reserve, implied);
  }

  lemma {:induction false} WithinStride(items: nat, stride: int, avg: real, usage: real, reserve: real, implied: int)
    requires avg > 0.0 && usage < 1.0 - reserve
    requires implied == (Headroom(usage, reserve) / avg * SAFETY).Floor && items <= stride == Clamp(implied)
    ensures usage + items as real * (2.0 * avg) <= if implied >= CHECK_MIN then 1.0 - reserve else usage + 20.0 * avg
  {
    ScaleDown(items as real, stride as real, 2.0 * avg);
    if implied >= CHECK_MIN {
      HalfHeadroom(Headroom(usage, reserve), avg);
      ScaleDown(stride as real, implied as real, 2.0 * avg);
    } else {
      assert stride as real * (2.0 * avg) == 20.0 * avg;
    }
  }

  /** Where no cost was observed the guard waits 100 items, and nothing bounds what usage climbs to meanwhile. */
  lemma {:induction false} UnobservedIsUnbounded(l: Limits, p: Paced, live: Option<Snapshot>, scored: nat, bound: real)
      returns (usage: nat -> real)
    requires !l.ignoreQuota && BudgetOk(live, l.reserve) && Reading(live).Some?
    requires Implied(p, Reading(live).value, scored, l.reserve).None?
    ensures Ask(l, p, live, scored).decision == Continue(CHECK_MAX)
    ensures usage(scored) == Reading(live).value && (forall i: nat, j: nat :: i <= j ==> usage(i) <= usage(j))
    ensures usage(scored + CHECK_MAX) > bound
  {
    var now := Reading(live).value;
    usage := (j: nat) => if j <= scored then now else if bound < now then now + 1.0 else bound + 1.0;
  }

  /** Whatever the meter says, the guard asks again within 10 to 100 items; unreadable, after exactly 10. */
  lemma {:induction false} NextCheckIsNear(l: Limits, p: Paced, live: Option<Snapshot>, scored: nat)
    ensures var d := Ask(l, p, live, scored).decision;
            d.Continue? ==> CHECK_MIN <= d.nextCheckAfter <= CHECK_MAX
                            && (!l.ignoreQuota && Reading(live).None? ==> d.nextCheckAfter == CHECK_MIN)
  {
  }

  /** The guard stops exactly when a readable meter shows no room outside the reserve and quota is not ignored. */
  lemma {:induction false} StopsExactly(l: Limits, p: Paced, live: Option<Snapshot>, scored: nat)
    ensures Ask(l, p, live, scored).decision.Stop?
            <==> !l.ignoreQuota && Reading(live).Some? && Reading(live).value >= 1.0 - l.reserve
  {
  }

  /**
   The guard remembers the last readable meter it let the loop go on from, or the preflight's, with the items scored
   then; an unreadable one, a stop and an ignored quota leave that as it is.
   */
  lemma {:induction false} PacingRemembers(l: Limits, p: Paced, live: Option<Snapshot>, scored: nat)
    ensures Ask(l, p, live, scored).paced
            == if !l.ignoreQuota && Reading(live).Some? && Reading(live).value < 1.0 - l.reserve
               then Paced(Reading(live).value, scored, true) else p
    ensures Baseline(live).seen <==> Reading(live).Some?
    ensures Reading(live).Some? ==> Baseline(live) == Paced(Reading(live).value, 0, true)
  {
  }

  /**
   The interval, exactly: 100 items where no rise since the remembered reading is seen; otherwise, between 10 and 100,
   the most items that fit the room outside the reserve at twice the average cost since that reading.
   */
  lemma {:induction false} IntervalExactly(l: Limits, p: Paced, live: Option<Snapshot>, scored: nat)
    requires !l.ignoreQuota && Reading(live).Some? && Reading(live).value < 1.0 - l.reserve
    ensures var d, usage := Ask(l, p, live, scored).decision, Reading(live).value;
            && d.Continue?
            && (!p.seen || scored <= p.items || usage <= p.usage ==> d.nextCheckAfter == 100)
            && (p.seen && scored > p.items && usage > p.usage ==>
                  var n, room, rise, items :=
                    d.nextCheckAfter, 1.0 - l.reserve - usage, usage - p.usage, scored - p.items;
                  && 10 <= n <= 100
                  && (n > 10 ==> Costs(n, rise, items) <= room)
                  && (n < 100 ==> Costs(n + 1, rise, items) > room))
  {
    var usage := Reading(live).value;
    if p.seen && scored > p.items && usage > p.usage {
      Fits(1.0 - l.reserve - usage, usage - p.usage, scored - p.items, Ask(l, p, live, scored).decision.nextCheckAfter);
    }
  }

  /** What `n` items cost at twice the average of `items` that cost `rise` together. */
  function Costs(n: int, rise: real, items: nat): real
    requires items > 0
  {
    n as real * (2.0 * (rise / items as real))
  }

  lemma {:induction false} Fits(room: real, rise: real, items: nat, n: int)
    requires room > 0.0 && rise > 0.0 && items > 0
    requires n == Clamp((room / (rise / items as real) * SAFETY).Floor)
    ensures n > 10 ==> Costs(n, rise, items) <= room
    ensures n < 100 ==> Costs(n + 1, rise, items) > room
  {
    var avg := rise / items as real;
    PositiveAverage(rise, items as real);
    var x := room / avg * SAFETY;
    assert x * (2.0 * avg) == room by {
      assert room / avg * avg == room;
    }
    if n > 10 {
      ScaleDown(n as real, x, 2.0 * avg);
    }
    if n < 100 {
      ScaleUp(x, (n + 1) as real, 2.0 * avg);
    }
  }

  lemma {:induction false} ScaleUp(a: real, b: real, c: real)
    requires a < b && c > 0.0
    ensures a * c < b * c
  {
  }

  /** The closure `still_within_budget` and the `paced` dictionary it updates. */
  class BudgetGuard {
    const limits: Limits
    var paced: Paced

    constructor (limits: Limits, preflight: Option<Snapshot>)
      ensures this.limits == limits && paced == Baseline(preflight)
    {
      this.limits := limits;
      paced := Baseline(preflight);
    }

    method StillWithinBudget(live: Option<Snapshot>, scored: nat) returns (d: Decision)
      modifies this
      ensures Asked(d, paced) == Ask(limits, old(paced), live, scored)
    {
      if limits.ignoreQuota {
        return Continue(CHECK_MAX);
      }
      if !BudgetOk(live, limits.reserve) {
        return Stop;
      }
      var usage := Reading(live);
      if usage.None? {
        return Continue(CHECK_MIN);
      }
      var stride := CHECK_MAX;
      if paced.seen {
        var itemsSince, spentSince := scored - paced.items, usage.value - paced.usage;
        if itemsSince > 0 && spentSince > 0.0 {
          var perItem := spentSince / itemsSince as real;
          PositiveAverage(spentSince, itemsSince as real);
          stride := (Headroom(usage.value, limits.reserve) / perItem * SAFETY).Floor;
        }
      }
      paced := Paced(usage.value, scored, true);
      return Continue(Clamp(stride));
    }
  }

  /** The state the guard starts from: the preflight reading, if it was readable. */
  function Baseline(preflight: Option<Snapshot>): Paced {
    match Reading(preflight)
    case None => Paced(0.0, 0, false)
    case Some(usage) => Paced(usage, 0, true)
  }
}
