/**
 Market phases (src/shrap/operations/market_phase.py). The exchange calendar is an input: its sessions, and the
 instants that the pre-open and extended-hours clock times fall on. Instants and days are integers.
 */
module MarketPhase {
  import opened Wrappers

  datatype Phase = PreOpen | Open | AfterHours | Overnight | ClosedDay

  datatype Session = Session(day: int, opens: int, closes: int, early: bool)

  datatype Transition = Transition(at: int, phase: Phase, session: int, early: bool)

  datatype Calendar = Calendar(sessions: seq<Session>, preOpen: int -> int, extendedEnd: int -> int, dayOf: int -> int)

  /** `opens[day]`, `closes[day]`. */
  function On(sessions: seq<Session>, day: int): (s: Option<Session>)
    ensures s.Some? ==> s.value in sessions && s.value.day == day
  {
    if sessions == [] then None
    else if sessions[|sessions| - 1].day == day then Some(sessions[|sessions| - 1])
    else On(sessions[..|sessions| - 1], day)
  }

  /** `next_session`: the first listed session after `day`. */
  function NextSession(sessions: seq<Session>, day: int): (s: Option<Session>)
    ensures s.Some? ==> s.value in sessions && s.value.day > day
    ensures s.None? <==> forall k :: 0 <= k < |sessions| ==> sessions[k].day <= day
  {
    if sessions == [] then None
    else if sessions[0].day > day then Some(sessions[0])
    else NextSession(sessions[1..], day)
  }

  function EarlyOn(c: Calendar, day: int): bool {
    var s := On(c.sessions, day);
    s.Some? && s.value.early
  }

  /** The transitions of one calendar day, or none when no later session is listed. */
  function OfDay(c: Calendar, day: int): Option<seq<Transition>> {
    var upcoming := NextSession(c.sessions, day);
    if upcoming.None? then None
    else
      var next := upcoming.value.day;
      match On(c.sessions, day)
      case Some(s) => Some([Transition(c.preOpen(day), PreOpen, day, s.early), Transition(s.opens, Open, day, s.early),
                            Transition(s.closes, AfterHours, day, s.early),
                            Transition(c.extendedEnd(day), Overnight, next, EarlyOn(c, next))])
      case None => Some([Transition(c.preOpen(day), ClosedDay, next, EarlyOn(c, next))])
  }

  /** The day loop's output for `start` up to `day`, exclusive; None where it raised. */
  function Collected(c: Calendar, start: int, day: int): Option<seq<Transition>>
    decreases day - start
  {
    if day <= start then Some([])
    else
      var before, today := Collected(c, start, day - 1), OfDay(c, day - 1);
      if before.None? || today.None? then None else Some(before.value + today.value)
  }

  /** Stable insertion, from the right. */
  function InsertByTime(ts: seq<Transition>, t: Transition): seq<Transition> {
    if ts == [] || ts[|ts| - 1].at <= t.at then ts + [t] else InsertByTime(ts[..|ts| - 1], t) + [ts[|ts| - 1]]
  }

  /** `sort(key=at)`, which is stable. */
  function SortByTime(ts: seq<Transition>): seq<Transition> {
    if ts == [] then [] else InsertByTime(SortByTime(ts[..|ts| - 1]), ts[|ts| - 1])
  }

  function Schedule(c: Calendar, start: int, end: int): Option<seq<Transition>> {
    var ts := Collected(c, start, end + 1);
    if ts.None? then None else Some(SortByTime(ts.value))
  }

  /** `build_schedule`; None where `next_session` raises. */
  method BuildSchedule(c: Calendar, start: int, end: int) returns (r: Option<seq<Transition>>)
    ensures r == Schedule(c, start, end)
  {
    var transitions: seq<Transition> := [];
    var day := start;
    while day <= end
      invariant start <= day && (day <= end + 1 || day == start)
      invariant Collected(c, start, day) == Some(transitions)
    {
      var today := OfDay(c, day);
      if today.None? {
        NoneAfter(c, start, day + 1, end + 1);
        return None;
      }
      transitions := transitions + today.value;
      day := day + 1;
    }
    return Some(SortByTime(transitions));
  }

  lemma {:induction false} NoneAfter(c: Calendar, start: int, day: int, end: int)
    requires start < day <= end && Collected(c, start, day).None?
    ensures Collected(c, start, end).None?
    decreases end - day
  {
    if day < end {
      assert Collected(c, start, day + 1).None?;
      NoneAfter(c, start, day + 1, end);
    }
  }

  // ----- what the calendar must satisfy -----

  ghost predicate OrderlySession(c: Calendar, s: Session) {
    c.preOpen(s.day) < s.opens < s.closes <= c.extendedEnd(s.day)
  }

  /**
   Sessions open and close between the day's pre-open and extended end; one day's extended end comes before the
   next day's pre-open; and the instants from pre-open to extended end belong to that exchange day.
   */
  ghost predicate Orderly(c: Calendar) {
    && (forall k :: 0 <= k < |c.sessions| ==> OrderlySession(c, c.sessions[k]))
    && (forall d: int :: c.preOpen(d) < c.extendedEnd(d) && c.extendedEnd(d) < c.preOpen(d + 1))
    && (forall d: int, m: int :: c.preOpen(d) <= m <= c.extendedEnd(d) ==> c.dayOf(m) == d)
  }

  ghost predicate InOrder(ts: seq<Transition>) {
    forall j, k :: 0 <= j < k < |ts| ==> ts[j].at <= ts[k].at
  }

  ghost predicate StrictlyInOrder(ts: seq<Transition>) {
    forall j, k :: 0 <= j < k < |ts| ==> ts[j].at < ts[k].at
  }

  lemma {:induction false} SortKeepsOrder(ts: seq<Transition>)
    requires InOrder(ts)
    ensures SortByTime(ts) == ts
  {
    if ts != [] {
      SortKeepsOrder(ts[..|ts| - 1]);
    }
  }

  // ----- the collected transitions -----

  /** A session of day `d` that leaves no room for after-hours trading. */
  ghost predicate TiesOn(c: Calendar, d: int) {
    On(c.sessions, d).Some? && On(c.sessions, d).value.closes == c.extendedEnd(d)
  }

  ghost predicate NoTies(c: Calendar, start: int, day: int) {
    forall d: int :: start <= d < day ==> !TiesOn(c, d)
  }

  /** Everything known of the transitions before `day`. */
  ghost predicate Shape(c: Calendar, start: int, day: int, ts: seq<Transition>) {
    && InOrder(ts)
    && (forall k :: 0 <= k < |ts| ==> ts[k].at <= c.extendedEnd(day - 1))
    && (StrictlyInOrder(ts) <==> NoTies(c, start, day))
    && (start < day ==> ts != [])
  }

  /** Each opening is followed at once by its own close, and belongs to a session of the window. */
  ghost predicate OpensThenCloses(c: Calendar, start: int, day: int, ts: seq<Transition>) {
    forall k :: 0 <= k < |ts| && ts[k].phase == Open ==>
      && k + 1 < |ts| && start <= ts[k].session < day && On(c.sessions, ts[k].session).Some?
      && ts[k].at == On(c.sessions, ts[k].session).value.opens
      && ts[k + 1].at == On(c.sessions, ts[k].session).value.closes
  }

  /** Every session of the window has its opening. */
  ghost predicate HasOpening(ts: seq<Transition>, d: int) {
    exists k :: 0 <= k < |ts| && ts[k].phase == Open && ts[k].session == d
  }

  ghost predicate AllOpen(c: Calendar, start: int, day: int, ts: seq<Transition>) {
    forall d: int :: start <= d < day && On(c.sessions, d).Some? ==> HasOpening(ts, d)
  }

  lemma {:induction false} DayShape(c: Calendar, day: int)
    requires Orderly(c) && OfDay(c, day).Some?
    ensures var ts := OfDay(c, day).value;
            && InOrder(ts) && ts != []
            && (forall k :: 0 <= k < |ts| ==> c.preOpen(day) <= ts[k].at <= c.extendedEnd(day))
            && (StrictlyInOrder(ts) <==> !TiesOn(c, day))
            && OpensThenCloses(c, day, day + 1, ts)
            && AllOpen(c, day, day + 1, ts)
  {
    hide NextSession;
    var ts := OfDay(c, day).value;
    match On(c.sessions, day) {
      case Some(s) =>
        assert OrderlySession(c, s);
        assert ts[1].phase == Open && ts[1].session == day;
        assert ts[2].at == s.closes && ts[3].at == c.extendedEnd(day);
      case None =>
    }
  }

  lemma {:induction false} JoinDays(c: Calendar, start: int, day: int, before: seq<Transition>, today: seq<Transition>)
    requires Orderly(c) && start <= day
    requires Shape(c, start, day, before) && InOrder(today) && today != []
    requires forall k :: 0 <= k < |today| ==> c.preOpen(day) <= today[k].at <= c.extendedEnd(day)
    requires StrictlyInOrder(today) <==> !TiesOn(c, day)
    ensures Shape(c, start, day + 1, before + today)
  {
    hide TiesOn;
    var ts := before + today;
    assert c.extendedEnd(day - 1) < c.preOpen(day - 1 + 1);
    forall j, k | 0 <= j < k < |ts| ensures ts[j].at <= ts[k].at && (j < |before| <= k ==> ts[j].at < ts[k].at) {
    }
    assert StrictlyInOrder(ts) <==> StrictlyInOrder(before) && StrictlyInOrder(today) by {
      if StrictlyInOrder(ts) {
        assert forall k :: 0 <= k < |before| ==> before[k] == ts[k];
        assert forall k :: 0 <= k < |today| ==> today[k] == ts[|before| + k];
      }
    }
    assert NoTies(c, start, day + 1) <==> NoTies(c, start, day) && !TiesOn(c, day);
  }

  lemma {:induction false} JoinOpens(c: Calendar, start: int, day: int, before: seq<Transition>, today: seq<Transition>)
    requires start <= day
    requires OpensThenCloses(c, start, day, before) && AllOpen(c, start, day, before)
    requires OpensThenCloses(c, day, day + 1, today) && AllOpen(c, day, day + 1, today)
    ensures OpensThenCloses(c, start, day + 1, before + today) && AllOpen(c, start, day + 1, before + today)
  {
    hide On;
    var ts := before + today;
    forall k | 0 <= k < |ts| && ts[k].phase == Open
      ensures k + 1 < |ts| && start <= ts[k].session < day + 1 && On(c.sessions, ts[k].session).Some?
              && ts[k].at == On(c.sessions, ts[k].session).value.opens
              && ts[k + 1].at == On(c.sessions, ts[k].session).value.closes
    {
      if k < |before| {
        assert before[k] == ts[k] && ts[k + 1] == before[k + 1];
      } else {
        assert today[k - |before|] == ts[k] && ts[k + 1] == today[k - |before| + 1];
      }
    }
    forall d: int | start <= d < day + 1 && On(c.sessions, d).Some? ensures HasOpening(ts, d) {
      if d < day {
        var k :| 0 <= k < |before| && before[k].phase == Open && before[k].session == d;
        assert ts[k] == before[k];
      } else {
        var k :| 0 <= k < |today| && today[k].phase == Open && today[k].session == d;
        assert ts[|before| + k] == today[k];
      }
    }
  }

  lemma {:induction false} CollectedShape(c: Calendar, start: int, day: int)
    requires Orderly(c) && start <= day && Collected(c, start, day).Some?
    ensures Shape(c, start, day, Collected(c, start, day).value)
    ensures OpensThenCloses(c, start, day, Collected(c, start, day).value)
    ensures AllOpen(c, start, day, Collected(c, start, day).value)
    decreases day - start
  {
    hide OfDay, Shape, OpensThenCloses, AllOpen, Orderly;
    if start == day {
      NothingCollected(c, start);
    } else {
      CollectedShape(c, start, day - 1);
      DayShape(c, day - 1);
      var before, today := Collected(c, start, day - 1).value, OfDay(c, day - 1).value;
      JoinDays(c, start, day - 1, before, today);
      JoinOpens(c, start, day - 1, before, today);
    }
  }

  lemma {:induction false} NothingCollected(c: Calendar, start: int)
    ensures Shape(c, start, start, []) && OpensThenCloses(c, start, start, []) && AllOpen(c, start, start, [])
  {
  }

  lemma {:induction false} CollectedSome(c: Calendar, start: int, day: int)
    requires start < day
    ensures Collected(c, start, day).Some? <==> NextSession(c.sessions, day - 1).Some?
    decreases day - start
  {
    if start + 1 < day {
      CollectedSome(c, start, day - 1);
      if NextSession(c.sessions, day - 1).Some? {
        assert NextSession(c.sessions, day - 2).Some?;
      }
    } else {
      assert Collected(c, start, day - 1) == Some([]);
    }
  }

  // ----- the schedule -----

  /**
   A schedule is built exactly when some listed session lies after the window. It is in order, and the sort moved
   nothing; it is strictly in order exactly when every session of the window closes before the extended end.
   */
  lemma {:induction false} ScheduleIsOrdered(c: Calendar, start: int, end: int)
    requires Orderly(c) && start <= end
    ensures Schedule(c, start, end).Some? <==> exists k :: 0 <= k < |c.sessions| && c.sessions[k].day > end
    ensures Schedule(c, start, end).Some? ==>
              var ts := Schedule(c, start, end).value;
              && ts == Collected(c, start, end + 1).value && InOrder(ts) && ts != []
              && (StrictlyInOrder(ts) <==>
                    forall d: int :: start <= d <= end && On(c.sessions, d).Some?
                      ==> On(c.sessions, d).value.closes < c.extendedEnd(d))
  {
    hide OfDay, Collected, On, InOrder, StrictlyInOrder, Orderly, NextSession;
    CollectedSome(c, start, end + 1);
    if Collected(c, start, end + 1).Some? {
      CollectedShape(c, start, end + 1);
      SortKeepsOrder(Collected(c, start, end + 1).value);
      RoomAfterClose(c, start, end);
    }
  }

  lemma {:induction false} RoomAfterClose(c: Calendar, start: int, end: int)
    requires Orderly(c)
    ensures NoTies(c, start, end + 1)
            <==> forall d: int :: start <= d <= end && On(c.sessions, d).Some?
                   ==> On(c.sessions, d).value.closes < c.extendedEnd(d)
  {
    hide On;
    forall d: int | start <= d <= end && On(c.sessions, d).Some?
      ensures On(c.sessions, d).value.closes < c.extendedEnd(d) <==> !TiesOn(c, d)
    {
      assert OrderlySession(c, On(c.sessions, d).value);
    }
  }

  // ----- reading the schedule -----

  /** How many transitions, from the first on, have been entered. */
  function Entered(ts: seq<Transition>, now: int): (n: nat)
    ensures n <= |ts|
    ensures forall k :: 0 <= k < n ==> ts[k].at <= now
    ensures n < |ts| ==> ts[n].at > now
  {
    if ts == [] || ts[0].at > now then 0 else 1 + Entered(ts[1..], now)
  }

  function CurrentOf(ts: seq<Transition>, now: int): Option<Transition> {
    if Entered(ts, now) == 0 then None else Some(ts[Entered(ts, now) - 1])
  }

  /** `current`; None where it raises. */
  method Current(ts: seq<Transition>, now: int) returns (current: Option<Transition>)
    ensures current == CurrentOf(ts, now)
  {
    current := None;
    var i := 0;
    while i < |ts|
      invariant 0 <= i <= |ts|
      invariant forall k :: 0 <= k < i ==> ts[k].at <= now
      invariant current == if i == 0 then None else Some(ts[i - 1])
    {
      if ts[i].at <= now {
        current := Some(ts[i]);
      } else {
        assert Entered(ts, now) == i;
        return;
      }
      i := i + 1;
    }
    assert Entered(ts, now) == i;
  }

  /** `due`. */
  function Due(ts: seq<Transition>, after: int, now: int): seq<Transition> {
    if ts == [] then [] else (if after < ts[0].at <= now then [ts[0]] else []) + Due(ts[1..], after, now)
  }

  /** `next_after`. */
  function NextAfter(ts: seq<Transition>, at: int): Option<Transition> {
    if ts == [] then None else if ts[0].at > at then Some(ts[0]) else NextAfter(ts[1..], at)
  }

  /** `is_regular_hours(now, regular_session_bounds(start, end))`. */
  predicate IsRegularHours(c: Calendar, start: int, end: int, now: int) {
    var day := c.dayOf(now);
    start <= day <= end && On(c.sessions, day).Some?
    && On(c.sessions, day).value.opens <= now < On(c.sessions, day).value.closes
  }

  /** From the first transition on, the phase is open exactly during regular hours. */
  lemma {:induction false} OpenIsRegularHours(c: Calendar, start: int, end: int, now: int)
    requires Orderly(c) && start <= end && Schedule(c, start, end).Some?
    requires now >= Schedule(c, start, end).value[0].at
    ensures CurrentOf(Schedule(c, start, end).value, now).Some?
    ensures CurrentOf(Schedule(c, start, end).value, now).value.phase == Open <==> IsRegularHours(c, start, end, now)
  {
    hide OfDay, Collected, On, Schedule;
    var ts := Schedule(c, start, end).value;
    ScheduleIsOrdered(c, start, end);
    CollectedShape(c, start, end + 1) by {
      assert Collected(c, start, end + 1).Some? by { BuiltFromCollected(c, start, end); }
    }
    var i := Entered(ts, now) - 1;
    if ts[i].phase == Open {
      var s := On(c.sessions, ts[i].session).value;
      assert OrderlySession(c, s);
      assert s.opens <= now < s.closes;
      assert c.dayOf(now) == s.day;
    }
    if IsRegularHours(c, start, end, now) {
      var day := c.dayOf(now);
      assert HasOpening(ts, day);
      var k :| 0 <= k < |ts| && ts[k].phase == Open && ts[k].session == day;
      assert ts[k].at <= now < ts[k + 1].at;
      Between(ts, now, k);
    }
  }

  lemma {:induction false} BuiltFromCollected(c: Calendar, start: int, end: int)
    requires Schedule(c, start, end).Some?
    ensures Collected(c, start, end + 1).Some?
  {
  }

  lemma {:induction false} Between(ts: seq<Transition>, now: int, k: nat)
    requires InOrder(ts) && k + 1 < |ts| && ts[k].at <= now < ts[k + 1].at
    ensures Entered(ts, now) == k + 1
  {
  }

  lemma {:induction false} DueJoins(ts: seq<Transition>, a: int, b: int, c: int)
    requires InOrder(ts) && a <= b <= c
    ensures Due(ts, a, b) + Due(ts, b, c) == Due(ts, a, c)
  {
    if ts != [] {
      DueJoins(ts[1..], a, b, c);
      if ts[0].at > b {
        NoneDue(ts, a, b);
      }
    }
  }

  lemma {:induction false} NoneDue(ts: seq<Transition>, a: int, b: int)
    requires forall k :: 0 <= k < |ts| ==> ts[k].at > b
    ensures Due(ts, a, b) == []
  {
    if ts != [] {
      NoneDue(ts[1..], a, b);
    }
  }

  /** What a poller that asks at `times` collects, one `due` per interval. */
  function Polled(ts: seq<Transition>, times: seq<int>): seq<Transition> {
    if |times| < 2 then [] else Due(ts, times[0], times[1]) + Polled(ts, times[1..])
  }

  /** For any nondecreasing poll times, the polls together return every transition of the span, once and in order. */
  lemma {:induction false} PollsMissNothing(ts: seq<Transition>, times: seq<int>)
    requires InOrder(ts) && times != [] && forall j, k :: 0 <= j < k < |times| ==> times[j] <= times[k]
    ensures Polled(ts, times) == Due(ts, times[0], times[|times| - 1])
  {
    if |times| == 1 {
      NoneInEmptySpan(ts, times[0]);
    } else {
      PollsMissNothing(ts, times[1..]);
      DueJoins(ts, times[0], times[1], times[|times| - 1]);
    }
  }

  lemma {:induction false} NoneInEmptySpan(ts: seq<Transition>, a: int)
    ensures Due(ts, a, a) == []
  {
    if ts != [] {
      NoneInEmptySpan(ts[1..], a);
    }
  }

  lemma {:induction false} DueConcat(x: seq<Transition>, y: seq<Transition>, a: int, b: int)
    ensures Due(x + y, a, b) == Due(x, a, b) + Due(y, a, b)
  {
    if x == [] {
      assert x + y == y;
    } else {
      assert (x + y)[1..] == x[1..] + y;
      DueConcat(x[1..], y, a, b);
    }
  }

  lemma {:induction false} AllOrNoneDue(ts: seq<Transition>, a: int, b: int)
    ensures (forall k :: 0 <= k < |ts| ==> ts[k].at <= a) ==> Due(ts, a, b) == []
    ensures (forall k :: 0 <= k < |ts| ==> a < ts[k].at <= b) ==> Due(ts, a, b) == ts
  {
    if ts != [] {
      AllOrNoneDue(ts[1..], a, b);
    }
  }

  /** In an ordered schedule a span's transitions are one stretch of it: the ones entered by `b` and not by `a`. */
  lemma {:induction false} DueIsAStretch(ts: seq<Transition>, a: int, b: int)
    requires InOrder(ts) && a <= b
    ensures Entered(ts, a) <= Entered(ts, b)
    ensures Due(ts, a, b) == ts[Entered(ts, a)..Entered(ts, b)]
  {
    hide Due, Entered, InOrder;
    EnteredByNow(ts, a);
    EnteredByNow(ts, b);
    var i, j := Entered(ts, a), Entered(ts, b);
    assert i <= j;
    assert ts == ts[..i] + (ts[i..j] + ts[j..]);
    DueOfParts(ts[..i], ts[i..j], ts[j..], a, b);
  }

  lemma {:induction false} DueOfParts(low: seq<Transition>, mid: seq<Transition>, high: seq<Transition>, a: int, b: int)
    requires forall k :: 0 <= k < |low| ==> low[k].at <= a
    requires forall k :: 0 <= k < |mid| ==> a < mid[k].at <= b
    requires forall k :: 0 <= k < |high| ==> high[k].at > b
    ensures Due(low + (mid + high), a, b) == mid
  {
    hide Due;
    DueConcat(low, mid + high, a, b);
    DueConcat(mid, high, a, b);
    AllOrNoneDue(low, a, b);
    AllOrNoneDue(mid, a, b);
    NoneDue(high, a, b);
  }

  /** In an ordered schedule, exactly the entered transitions lie at or before `now`. */
  lemma {:induction false} EnteredByNow(ts: seq<Transition>, now: int)
    requires InOrder(ts)
    ensures forall k :: Entered(ts, now) <= k < |ts| ==> ts[k].at > now
  {
    forall k | Entered(ts, now) <= k < |ts| ensures ts[k].at > now {
      assert ts[Entered(ts, now)].at <= ts[k].at;
    }
  }

  /** `next_after(now)` is the transition right after the current one. */
  lemma {:induction false} NextFollowsCurrent(ts: seq<Transition>, now: int)
    ensures NextAfter(ts, now) == if Entered(ts, now) < |ts| then Some(ts[Entered(ts, now)]) else None
  {
    if ts != [] && ts[0].at <= now {
      NextFollowsCurrent(ts[1..], now);
    }
  }
}
