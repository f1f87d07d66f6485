/**
 The status half of the Execution Agent: the first check of each submitted order, the in-memory
 watch set, and the re-polling of orders not yet terminal
 (src/shrap/trading_floor/execution_agent.py, `poll_order_status_once`, `_track_if_pending`,
 `repoll_pending_once`).
 */
module StatusWatch {
  import opened Text

  /** The `status` field of a broker reply; a reply may lack the key. */
  datatype StatusField = Status(text: string) | Null | Missing

  /** `get_order`: the order, a 404, another failure, or a body that raises ValueError. */
  datatype BrokerAnswer = Found(status: StatusField) | Unknown | Failed | Garbled

  /** Publishing one event: done, applied but raised, raised without effect, or refused with ValueError. */
  datatype PublishAnswer = Sent | SentReplyLost | NotSent | TooLarge

  /** Acknowledging one event: done, done although the call raised, or not done. */
  datatype Ack = Acked | AckReplyLost | NotAcked

  datatype SubmittedEvent = SubmittedEvent(account: string, orderId: string)

  datatype PendingOrder = PendingOrder(lastStatus: string, nextCheckAt: int)

  /** A published status event; `status` is the payload's field, null when the reply had none. */
  datatype Publication = Publication(orderId: string, status: StatusField)

  /**
   The process's watch set; what was published so far; how many readable events of the submitted stream the
   group has acknowledged, a prefix since the loop breaks at the first that is not; and (history) the orders let
   go: on a 404, on an acknowledgement whose reply was lost, or by a restart.
   */
  datatype Watch = Watch(pending: map<string, PendingOrder>, published: seq<Publication>, acked: nat,
                         dropped: set<string>)

  const Start := Watch(map[], [], 0, {})

  /** `payload["status"]`. */
  function Field(s: StatusField): StatusField {
    if s.Missing? then Null else s
  }

  /** `str(payload.get("status", ""))` in `_track_if_pending`, where the key is always present. */
  function TrackedText(s: StatusField): string {
    if s.Status? then s.text else "None"
  }

  /** `str(broker_response.get("status", ""))` in `repoll_pending_once`. */
  function RepolledText(s: StatusField): string {
    match s case Status(text) => text case Null => "None" case Missing => ""
  }

  predicate IsTerminal(status: string) {
    Lower(status) in {"filled", "canceled", "cancelled", "expired", "rejected"}
  }

  // ----- one submitted event -----

  /** The answers one submitted event meets. */
  datatype Answers = Answers(broker: BrokerAnswer, publish: PublishAnswer, ack: Ack)

  datatype Handled = Handled(watch: Watch, goOn: bool)

  function Track(w: Watch, id: string, status: StatusField, nextCheckAt: int): Watch {
    var text := TrackedText(status);
    if IsTerminal(text) then w.(pending := w.pending - {id})
    else w.(pending := w.pending[id := PendingOrder(text, nextCheckAt)])
  }

  function Publish(w: Watch, id: string, status: StatusField): Watch {
    w.(published := w.published + [Publication(id, Field(status))])
  }

  function Acknowledge(w: Watch, ack: Ack): Watch {
    if ack.NotAcked? then w else w.(acked := w.acked + 1)
  }

  /** The event is of this account and names the order `id`. */
  predicate Names(account: string, event: SubmittedEvent, id: string) {
    Strip(event.account) == account && Strip(event.orderId) == id && id != ""
  }

  /** One pass through the status loop's body; `goOn` is false where it breaks or raises. */
  function HandleSubmitted(w: Watch, account: string, event: SubmittedEvent, n: Answers, nextCheckAt: int): Handled {
    var id := Strip(event.orderId);
    var skipped := Handled(Acknowledge(w, n.ack), n.ack.Acked?);
    if !Names(account, event, id) then skipped else
    match n.broker
    case Failed => Handled(w, false)
    case Unknown => skipped
    case Garbled => skipped
    case Found(status) =>
      match n.publish
      case NotSent => Handled(w, false)
      case SentReplyLost => Handled(Publish(w, id, status), false)
      case TooLarge => skipped
      case Sent =>
        var sent := Acknowledge(Publish(w, id, status), n.ack);
        match n.ack
        case Acked => Handled(Track(sent, id, status, nextCheckAt), true)
        case AckReplyLost => Handled(sent.(dropped := sent.dropped + {id}), false)
        case NotAcked => Handled(sent, false)
  }

  /** `poll_order_status_once` over the batch the group handed out. */
  function PollSpec(w: Watch, account: string, events: seq<SubmittedEvent>, answers: seq<Answers>,
                    nextCheckAt: int): Watch
    decreases |events|
  {
    if events == [] || answers == [] then w
    else
      var h := HandleSubmitted(w, account, events[0], answers[0], nextCheckAt);
      if h.goOn then PollSpec(h.watch, account, events[1..], answers[1..], nextCheckAt) else h.watch
  }

  // ----- one watched order -----

  /** One entry of the re-poll loop; a publish that raises leaves the loop. */
  function RepollOne(w: Watch, id: string, broker: BrokerAnswer, publish: PublishAnswer, now: int,
                     interval: int): Handled {
    if id !in w.pending || w.pending[id].nextCheckAt > now then Handled(w, true) else
    var entry := w.pending[id];
    match broker
    case Unknown => Handled(w.(pending := w.pending - {id}, dropped := w.dropped + {id}), true)
    case Failed => Handled(w.(pending := w.pending[id := entry.(nextCheckAt := now + interval)]), true)
    case Garbled => Handled(w.(pending := w.pending[id := entry.(nextCheckAt := now + interval)]), true)
    case Found(field) =>
      var status := RepolledText(field);
      var changed := Lower(status) != Lower(entry.lastStatus);
      if changed && publish.SentReplyLost? then Handled(Publish(w, id, field), false)
      else if changed && !publish.Sent? then Handled(w, false)
      else
        var sent := if changed then Publish(w, id, field) else w;
        if IsTerminal(status) then Handled(sent.(pending := sent.pending - {id}), true)
        else Handled(sent.(pending := sent.pending[id := PendingOrder(status, now + interval)]), true)
  }

  datatype Check = Check(id: string, broker: BrokerAnswer, publish: PublishAnswer)

  /** The re-poll loop over a snapshot of the watch set. */
  function RepollSpec(w: Watch, checks: seq<Check>, now: int, interval: int): Watch
    decreases |checks|
  {
    if checks == [] then w
    else
      var h := RepollOne(w, checks[0].id, checks[0].broker, checks[0].publish, now, interval);
      if h.goOn then RepollSpec(h.watch, checks[1..], now, interval) else h.watch
  }

  // ----- any life -----

  /** One event handled, one watched order checked, or the process restarted with an empty watch set. */
  datatype Step =
    | Handle(answers: Answers, nextCheckAt: int)
    | Recheck(check: Check, now: int, interval: int)
    | Restart

  /** `log` is the submitted stream; the group hands over its first event not acknowledged. */
  function Act(w: Watch, account: string, log: seq<SubmittedEvent>, step: Step): Watch {
    match step
    case Handle(n, at) => if w.acked < |log| then HandleSubmitted(w, account, log[w.acked], n, at).watch else w
    case Recheck(c, now, interval) => RepollOne(w, c.id, c.broker, c.publish, now, interval).watch
    case Restart => w.(pending := map[], dropped := w.dropped + w.pending.Keys)
  }

  function Live(w: Watch, account: string, log: seq<SubmittedEvent>, steps: seq<Step>): Watch
    decreases |steps|
  {
    if steps == [] then w else Live(Act(w, account, log, steps[0]), account, log, steps[1..])
  }

  function Handles(answers: seq<Answers>, at: int): (s: seq<Step>)
    ensures |s| == |answers|
  {
    seq(|answers|, i requires 0 <= i < |answers| => Handle(answers[i], at))
  }

  function Rechecks(checks: seq<Check>, now: int, interval: int): (s: seq<Step>)
    ensures |s| == |checks|
  {
    seq(|checks|, i requires 0 <= i < |checks| => Recheck(checks[i], now, interval))
  }

  /** A poll is a run of steps: as many as it handles before it breaks. */
  lemma {:induction false} PollIsSteps(w: Watch, account: string, log: seq<SubmittedEvent>, answers: seq<Answers>,
                                       at: int)
      returns (n: nat)
    requires w.acked <= |log|
    ensures n <= |answers|
    ensures PollSpec(w, account, log[w.acked..], answers, at) == Live(w, account, log, Handles(answers[..n], at))
    decreases |answers|
  {
    n := 0;
    if w.acked < |log| && answers != [] {
      hide HandleSubmitted;
      var h := HandleSubmitted(w, account, log[w.acked], answers[0], at);
      GoesOnWhenAcked(w, account, log[w.acked], answers[0], at);
      if h.goOn {
        var m := PollIsSteps(h.watch, account, log, answers[1..], at);
        n := m + 1;
        assert log[w.acked..][1..] == log[h.watch.acked..];
        assert Handles(answers[..n], at)[1..] == Handles(answers[1..][..m], at);
      } else {
        n := 1;
        assert Handles(answers[..1], at)[1..] == [];
      }
    }
  }

  lemma {:induction false} GoesOnWhenAcked(w: Watch, account: string, event: SubmittedEvent, n: Answers, at: int)
    ensures var h := HandleSubmitted(w, account, event, n, at); h.goOn ==> h.watch.acked == w.acked + 1
  {
    hide Strip, IsTerminal, TrackedText;
  }

  /** A re-poll pass is a run of steps: as many as it checks before a publish raises. */
  lemma {:induction false} RepollIsSteps(w: Watch, account: string, log: seq<SubmittedEvent>, checks: seq<Check>,
                                         now: int, interval: int)
      returns (n: nat)
    ensures n <= |checks|
    ensures RepollSpec(w, checks, now, interval) == Live(w, account, log, Rechecks(checks[..n], now, interval))
    decreases |checks|
  {
    n := 0;
    if checks != [] {
      hide RepollOne;
      var h := RepollOne(w, checks[0].id, checks[0].broker, checks[0].publish, now, interval);
      if h.goOn {
        var m := RepollIsSteps(h.watch, account, log, checks[1..], now, interval);
        n := m + 1;
        assert Rechecks(checks[..n], now, interval)[1..] == Rechecks(checks[1..][..m], now, interval);
      } else {
        n := 1;
        assert Rechecks(checks[..1], now, interval)[1..] == [];
      }
    }
  }

  // ----- the history of one order -----

  /** The case-folded statuses published for `id`, oldest first; "filled" is the one that goes to the filled stream. */
  function History(published: seq<Publication>, id: string): seq<string> {
    if published == [] then []
    else
      var before, p := History(published[..|published| - 1], id), published[|published| - 1];
      if p.orderId == id then before + [Lower(TrackedText(p.status))] else before
  }

  /** No status twice in a row, and nothing after a terminal one. */
  ghost predicate Orderly(h: seq<string>) {
    && (forall k :: 0 < k < |h| ==> h[k] != h[k - 1])
    && (forall k :: 0 <= k < |h| - 1 ==> !IsTerminal(h[k]))
  }

  function HistoryOf(w: Watch, id: string): seq<string> {
    History(w.published, id)
  }

  /** What the watch set remembers of `id` is the last status published for it, and that one is not terminal. */
  predicate Remembers(w: Watch, id: string)
    requires id in w.pending
  {
    var h := HistoryOf(w, id);
    h != [] && Lower(w.pending[id].lastStatus) == h[|h| - 1] && !IsTerminal(h[|h| - 1])
  }

  /** An event of the stream from position `from` on names `id`. */
  ghost predicate StillToCome(account: string, log: seq<SubmittedEvent>, from: nat, id: string) {
    exists k :: from <= k < |log| && Names(account, log[k], id)
  }

  /** An order published once is not handed over again, and one that is watched is remembered as published. */
  ghost predicate InStep(w: Watch, account: string, log: seq<SubmittedEvent>, id: string) {
    && (StillToCome(account, log, w.acked, id) ==> HistoryOf(w, id) == [])
    && (id in w.pending ==> Remembers(w, id))
  }

  ghost predicate Fine(w: Watch, account: string, log: seq<SubmittedEvent>, id: string) {
    Orderly(HistoryOf(w, id)) && InStep(w, account, log, id)
  }

  ghost predicate AllFine(w: Watch, account: string, log: seq<SubmittedEvent>) {
    forall id: string :: Fine(w, account, log, id)
  }

  /** Published orders that are not watched are terminal or were let go. */
  ghost predicate Watched(w: Watch, id: string) {
    var h := HistoryOf(w, id);
    && (id in w.pending ==> h != [] && id !in w.dropped)
    && (id in w.dropped ==> h != [])
    && (h != [] && id !in w.pending ==> id in w.dropped || IsTerminal(h[|h| - 1]))
  }

  ghost predicate AllWatched(w: Watch) {
    forall id: string :: Watched(w, id)
  }

  // ----- the faults that matter -----

  /** A first check was published, and its order will be handed over again. */
  ghost predicate PublishedTooSoon(w: Watch, account: string, log: seq<SubmittedEvent>, n: Answers) {
    && w.acked < |log|
    && n.broker.Found? && (n.publish.Sent? || n.publish.SentReplyLost?)
    && var id := Strip(log[w.acked].orderId);
       && Names(account, log[w.acked], id)
       && StillToCome(account, log, if n.publish.Sent? && !n.ack.NotAcked? then w.acked + 1 else w.acked, id)
  }

  /** A changed status of a due order was published, but the reply was lost or the order has no `status` key. */
  predicate PublishedInVain(w: Watch, c: Check, now: int) {
    && c.id in w.pending && w.pending[c.id].nextCheckAt <= now
    && c.broker.Found? && Lower(RepolledText(c.broker.status)) != Lower(w.pending[c.id].lastStatus)
    && (c.publish.SentReplyLost? || (c.publish.Sent? && c.broker.status.Missing?))
  }

  ghost predicate Fault(w: Watch, account: string, log: seq<SubmittedEvent>, step: Step) {
    match step
    case Handle(n, _) => PublishedTooSoon(w, account, log, n)
    case Recheck(c, now, _) => PublishedInVain(w, c, now)
    case Restart => false
  }

  ghost predicate Faultless(w: Watch, account: string, log: seq<SubmittedEvent>, steps: seq<Step>)
    decreases |steps|
  {
    steps == [] ||
    (!Fault(w, account, log, steps[0]) && Faultless(Act(w, account, log, steps[0]), account, log, steps[1..]))
  }

  /** Where every order has one event, a first check is published too soon exactly when it is not acknowledged. */
  lemma {:induction false} TooSoonIsUnacknowledged(w: Watch, account: string, log: seq<SubmittedEvent>, n: Answers,
                                                   id: string)
    requires forall j, k, o :: 0 <= j < k < |log| && Names(account, log[j], o) ==> !Names(account, log[k], o)
    requires w.acked < |log| && Names(account, log[w.acked], id)
    ensures PublishedTooSoon(w, account, log, n) <==>
              n.broker.Found? && (n.publish.SentReplyLost? || (n.publish.Sent? && n.ack.NotAcked?))
  {
    hide Strip;
    assert StillToCome(account, log, w.acked, id);
  }

  // ----- one step -----

  lemma {:induction false} LowerIdempotent(s: string)
    ensures Lower(Lower(s)) == Lower(s)
  {
  }

  lemma {:induction false} TerminalFolds(s: string)
    ensures IsTerminal(Lower(s)) == IsTerminal(s)
  {
    LowerIdempotent(s);
  }

  lemma {:induction false} TrackedField(s: StatusField)
    ensures TrackedText(Field(s)) == TrackedText(s)
    ensures !s.Missing? ==> RepolledText(s) == TrackedText(s)
    ensures s.Missing? ==> Lower(RepolledText(s)) == "" && Lower(TrackedText(s)) == "none"
  {
    assert Lower("None") == "none";
  }

  lemma {:induction false} HistoryAppend(published: seq<Publication>, p: Publication, id: string)
    ensures History(published + [p], id) ==
            if p.orderId == id then History(published, id) + [Lower(TrackedText(p.status))] else History(published, id)
  {
    assert (published + [p])[..|published|] == published;
  }

  lemma {:induction false} HistoryIsFolded(published: seq<Publication>, id: string)
    ensures var h := History(published, id); h != [] ==> Lower(h[|h| - 1]) == h[|h| - 1]
  {
    hide TrackedText;
    if published != [] {
      HistoryIsFolded(published[..|published| - 1], id);
      LowerIdempotent(TrackedText(published[|published| - 1].status));
    }
  }

  lemma {:induction false} OrderlyAppend(h: seq<string>, s: string)
    ensures Orderly(h + [s]) <==> Orderly(h) && (h != [] ==> h[|h| - 1] != s && !IsTerminal(h[|h| - 1]))
  {
    hide IsTerminal;
    var g := h + [s];
    if Orderly(g) {
      forall k | 0 < k < |h| ensures h[k] != h[k - 1] {
        assert g[k] != g[k - 1];
      }
      forall k | 0 <= k < |h| ensures !IsTerminal(h[k]) {
        assert !IsTerminal(g[k]);
      }
      assert h != [] ==> g[|h|] != g[|h| - 1];
    }
  }

  /** What a step leaves of an order it does not concern. */
  ghost predicate SameOrder(w: Watch, w': Watch, id: string) {
    && HistoryOf(w', id) == HistoryOf(w, id) && w.acked <= w'.acked
    && (id in w'.dropped <==> id in w.dropped)
    && (id in w'.pending <==> id in w.pending)
    && (id in w.pending ==> w'.pending[id].lastStatus == w.pending[id].lastStatus)
  }

  lemma {:induction false} SameIsFine(w: Watch, w': Watch, account: string, log: seq<SubmittedEvent>, id: string)
    requires SameOrder(w, w', id)
    ensures Fine(w, account, log, id) ==> Fine(w', account, log, id)
    ensures Watched(w, id) ==> Watched(w', id)
  {
    hide History, HistoryOf, Names, Orderly, IsTerminal, Lower;
  }

  lemma {:induction false} HandleFrame(w: Watch, account: string, event: SubmittedEvent, n: Answers, at: int,
                                       id: string)
    requires !Names(account, event, id)
    ensures SameOrder(w, HandleSubmitted(w, account, event, n, at).watch, id)
  {
    hide Strip, IsTerminal, TrackedText, History, Lower;
    if n.broker.Found? {
      HistoryAppend(w.published, Publication(Strip(event.orderId), Field(n.broker.status)), id);
    }
  }

  lemma {:induction false} RepollFrame(w: Watch, c: Check, now: int, interval: int, id: string)
    requires id != c.id
    ensures SameOrder(w, RepollOne(w, c.id, c.broker, c.publish, now, interval).watch, id)
  {
    hide IsTerminal, Lower, RepolledText, TrackedText, History;
    if c.broker.Found? {
      HistoryAppend(w.published, Publication(c.id, Field(c.broker.status)), id);
    }
  }

  /** Handling the event that names `id`, from a state in step, where nothing was published for it. */
  lemma {:induction false} HandleSelf(w: Watch, account: string, log: seq<SubmittedEvent>, n: Answers, at: int,
                                      id: string)
    requires w.acked < |log| && Names(account, log[w.acked], id)
    requires Fine(w, account, log, id)
    ensures var w' := HandleSubmitted(w, account, log[w.acked], n, at).watch;
            && (Fine(w', account, log, id) <==> !PublishedTooSoon(w, account, log, n))
            && (Watched(w, id) && Fine(w', account, log, id) ==> Watched(w', id))
  {
    hide Strip, Lower, IsTerminal, TrackedText, History;
    var w' := HandleSubmitted(w, account, log[w.acked], n, at).watch;
    assert StillToCome(account, log, w.acked, id);
    if n.broker.Found? && (n.publish.Sent? || n.publish.SentReplyLost?) {
      HistoryAppend(w.published, Publication(id, Field(n.broker.status)), id);
      TerminalFolds(TrackedText(n.broker.status));
      TrackedField(n.broker.status);
      assert HistoryOf(w', id) == [Lower(TrackedText(n.broker.status))];
    }
  }

  /** Checking a watched order, from a state in step. */
  lemma {:induction false} RecheckSelf(w: Watch, account: string, log: seq<SubmittedEvent>, c: Check, now: int,
                                       interval: int)
    requires Fine(w, account, log, c.id)
    ensures var w' := RepollOne(w, c.id, c.broker, c.publish, now, interval).watch;
            && (Fine(w', account, log, c.id) <==> !PublishedInVain(w, c, now))
            && (Watched(w, c.id) && Fine(w', account, log, c.id) ==> Watched(w', c.id))
  {
    hide Names, Lower, IsTerminal, TrackedText, RepolledText, History, Orderly;
    if c.id in w.pending && c.broker.Found? {
      var status := c.broker.status;
      TrackedField(status);
      TerminalFolds(RepolledText(status));
      HistoryAppend(w.published, Publication(c.id, Field(status)), c.id);
      OrderlyAppend(HistoryOf(w, c.id), Lower(TrackedText(status)));
      TerminalFolds(w.pending[c.id].lastStatus);
      assert !IsTerminal("") by { EmptyIsNotTerminal(); }
    }
  }

  lemma {:induction false} EmptyIsNotTerminal()
    ensures !IsTerminal("")
  {
    assert Lower("") == "";
  }

  ghost predicate Concerns(w: Watch, account: string, log: seq<SubmittedEvent>, step: Step, id: string) {
    match step
    case Handle(_, _) => w.acked < |log| && Names(account, log[w.acked], id)
    case Recheck(c, _, _) => c.id == id
    case Restart => false
  }

  lemma {:induction false} StepOnOrder(w: Watch, account: string, log: seq<SubmittedEvent>, step: Step, id: string)
    requires Fine(w, account, log, id)
    ensures var w' := Act(w, account, log, step);
            && (Fine(w', account, log, id) <==> !(Fault(w, account, log, step) && Concerns(w, account, log, step, id)))
            && (Watched(w, id) && Fine(w', account, log, id) ==> Watched(w', id))
  {
    hide HandleSubmitted, RepollOne, PublishedTooSoon, PublishedInVain, History, Orderly, Names, IsTerminal, Lower;
    match step {
      case Handle(n, at) =>
        if w.acked < |log| {
          if Names(account, log[w.acked], id) {
            HandleSelf(w, account, log, n, at, id);
          } else {
            HandleFrame(w, account, log[w.acked], n, at, id);
            SameIsFine(w, Act(w, account, log, step), account, log, id);
          }
        }
      case Recheck(c, now, interval) =>
        if c.id == id {
          RecheckSelf(w, account, log, c, now, interval);
        } else {
          RepollFrame(w, c, now, interval, id);
          SameIsFine(w, Act(w, account, log, step), account, log, id);
        }
      case Restart =>
    }
  }

  lemma {:induction false} FaultConcerns(w: Watch, account: string, log: seq<SubmittedEvent>, step: Step)
      returns (id: string)
    requires Fault(w, account, log, step)
    ensures Concerns(w, account, log, step, id)
  {
    hide Strip, StillToCome;
    id := if step.Recheck? then step.check.id else Strip(log[w.acked].orderId);
  }

  /**
   From a state where every history is orderly and every order in step, a step keeps it so exactly when it is
   not one of the faults.
   */
  lemma {:induction false} StepKeepsExactly(w: Watch, account: string, log: seq<SubmittedEvent>, step: Step)
    requires AllFine(w, account, log)
    ensures var w' := Act(w, account, log, step);
            && (AllFine(w', account, log) <==> !Fault(w, account, log, step))
            && (AllWatched(w) && AllFine(w', account, log) ==> AllWatched(w'))
  {
    hide Fine, Watched, Act, Fault, Concerns;
    var w' := Act(w, account, log, step);
    forall id: string
      ensures Fine(w', account, log, id) <==> !(Fault(w, account, log, step) && Concerns(w, account, log, step, id))
      ensures AllWatched(w) && Fine(w', account, log, id) ==> Watched(w', id)
    {
      assert Fine(w, account, log, id);
      StepOnOrder(w, account, log, step, id);
    }
    if Fault(w, account, log, step) {
      var id := FaultConcerns(w, account, log, step);
    }
  }

  // ----- any number of steps -----

  lemma {:induction false} StartIsFine(account: string, log: seq<SubmittedEvent>)
    ensures AllFine(Start, account, log) && AllWatched(Start)
  {
  }

  /** Along a life from a state in step, every state is in step exactly when no fault strikes. */
  lemma {:induction false} LifeKeepsExactly(w: Watch, account: string, log: seq<SubmittedEvent>, steps: seq<Step>)
    requires AllFine(w, account, log)
    ensures (forall k :: 0 <= k <= |steps| ==> AllFine(Live(w, account, log, steps[..k]), account, log))
            <==> Faultless(w, account, log, steps)
    ensures Faultless(w, account, log, steps) ==>
              var w' := Live(w, account, log, steps); AllFine(w', account, log) && (AllWatched(w) ==> AllWatched(w'))
    decreases |steps|
  {
    hide AllFine, AllWatched, Act, Fault;
    if steps == [] {
      assert steps[..0] == [];
    } else {
      var w' := Act(w, account, log, steps[0]);
      StepKeepsExactly(w, account, log, steps[0]);
      FirstStep(w, account, log, steps);
      if AllFine(w', account, log) {
        LifeKeepsExactly(w', account, log, steps[1..]);
        if forall k :: 0 <= k <= |steps| ==> AllFine(Live(w, account, log, steps[..k]), account, log) {
          forall k | 0 <= k <= |steps[1..]| ensures AllFine(Live(w', account, log, steps[1..][..k]), account, log) {
            assert AllFine(Live(w, account, log, steps[..k + 1]), account, log);
          }
        }
        assert Live(w, account, log, steps[..0]) == w;
      } else {
        assert steps[1..][..0] == [] && Live(w, account, log, steps[..1]) == w';
      }
    }
  }

  lemma {:induction false} FirstStep(w: Watch, account: string, log: seq<SubmittedEvent>, steps: seq<Step>)
    requires steps != []
    ensures forall k :: 0 < k <= |steps| ==>
              Live(w, account, log, steps[..k])
              == Live(Act(w, account, log, steps[0]), account, log, steps[1..][..k - 1])
  {
    hide Act;
    forall k | 0 < k <= |steps|
      ensures Live(w, account, log, steps[..k])
              == Live(Act(w, account, log, steps[0]), account, log, steps[1..][..k - 1])
    {
      assert steps[..k][1..] == steps[1..][..k - 1];
    }
  }

  // ----- what an acknowledgement means -----

  /** The answers after which an own order's event is acknowledged although nothing was published for it. */
  predicate Skips(n: Answers) {
    n.broker.Unknown? || n.broker.Garbled? || (n.broker.Found? && n.publish.TooLarge?)
  }

  /**
   One event: it is acknowledged without a published status exactly when it names no order of this account, or was
   answered 404, a garbled body or a refused publish, and its acknowledgement took effect; with one, exactly when the
   order was found, its status went out, and the acknowledgement took effect. The loop goes on exactly when the reply
   of an acknowledgement arrives; a lookup or a publish that raised otherwise leaves the event where it was.
   */
  lemma {:induction false} AcknowledgedExactly(w: Watch, account: string, event: SubmittedEvent, n: Answers, at: int)
    ensures var h, id := HandleSubmitted(w, account, event, n, at), Strip(event.orderId);
            var own := Names(account, event, id);
            var w' := h.watch;
            && w'.acked in {w.acked, w.acked + 1}
            && (w'.acked > w.acked && w'.published == w.published <==> (!own || Skips(n)) && !n.ack.NotAcked?)
            && (w'.acked > w.acked && w'.published != w.published
                <==> own && n.broker.Found? && n.publish.Sent? && !n.ack.NotAcked?)
            && (w'.published == w.published
                || (own && n.broker.Found? && (n.publish.Sent? || n.publish.SentReplyLost?)
                    && w'.published == w.published + [Publication(id, Field(n.broker.status))]))
            && (h.goOn <==> w'.acked > w.acked && n.ack.Acked?)
            && (w'.pending != w.pending ==> h.goOn && w'.published != w.published)
            && (h.goOn && w'.published != w.published ==>
                  if IsTerminal(TrackedText(n.broker.status)) then id !in w'.pending
                  else id in w'.pending && w'.pending[id] == PendingOrder(TrackedText(n.broker.status), at))
  {
    hide Strip, Field, IsTerminal, TrackedText;
  }

  /**
   One watched order: nothing happens before it is due. Then it leaves the watch set exactly on a 404, or on a
   terminal status that was no change or went out; otherwise it is due again an interval later, unless a publish that
   raised ended the pass. A status goes out exactly when it changed, up to case, and the publish took effect.
   */
  lemma {:induction false} RecheckedExactly(w: Watch, id: string, broker: BrokerAnswer, publish: PublishAnswer,
                                            now: int, interval: int)
    requires id in w.pending
    ensures var h, was := RepollOne(w, id, broker, publish, now, interval), w.pending[id];
            var w', due := h.watch, was.nextCheckAt <= now;
            var found := due && broker.Found?;
            var changed := found && Lower(RepolledText(broker.status)) != Lower(was.lastStatus);
            && (!due ==> w' == w && h.goOn)
            && (h.goOn <==> !(changed && !publish.Sent?))
            && (w'.published == w.published <==> !(changed && (publish.Sent? || publish.SentReplyLost?)))
            && (w'.published != w.published ==> w'.published == w.published + [Publication(id, Field(broker.status))])
            && (id !in w'.pending
                <==> due && h.goOn && (broker.Unknown? || (found && IsTerminal(RepolledText(broker.status)))))
            && (due && h.goOn && id in w'.pending ==>
                  w'.pending[id] == PendingOrder(if found then RepolledText(broker.status) else was.lastStatus,
                                                 now + interval))
            && (!h.goOn ==> w'.pending == w.pending)
            && w'.acked == w.acked
  {
    hide Lower, IsTerminal, RepolledText, Field;
  }

  lemma {:induction false} LiveSnoc(w: Watch, account: string, log: seq<SubmittedEvent>, steps: seq<Step>, last: Step)
    ensures Live(w, account, log, steps + [last]) == Act(Live(w, account, log, steps), account, log, last)
    decreases |steps|
  {
    hide Act;
    var all := steps + [last];
    if steps == [] {
      assert all[1..] == [];
    } else {
      assert all[1..] == steps[1..] + [last];
      LiveSnoc(Act(w, account, log, steps[0]), account, log, steps[1..], last);
    }
  }

  /** The `j`-th step of the life handled the event at position `k` and met an answer that skips it. */
  predicate SkippedBy(account: string, log: seq<SubmittedEvent>, steps: seq<Step>, j: nat, k: nat) {
    && j < |steps| && steps[j].Handle? && Live(Start, account, log, steps[..j]).acked == k
    && Skips(steps[j].answers) && !steps[j].answers.ack.NotAcked?
  }

  lemma {:induction false} StepPublishes(w: Watch, account: string, log: seq<SubmittedEvent>, step: Step, id: string)
    ensures HistoryOf(w, id) != [] ==> HistoryOf(Act(w, account, log, step), id) != []
    ensures w.acked <= Act(w, account, log, step).acked
  {
    hide Strip, IsTerminal, TrackedText, RepolledText, Lower, History;
    match step {
      case Handle(n, _) =>
        if w.acked < |log| && n.broker.Found? {
          HistoryAppend(w.published, Publication(Strip(log[w.acked].orderId), Field(n.broker.status)), id);
        }
      case Recheck(c, _, _) =>
        if c.broker.Found? {
          HistoryAppend(w.published, Publication(c.id, Field(c.broker.status)), id);
        }
      case Restart =>
    }
  }

  /** Handling moves the acknowledgements on past the event handed over only when it published or skipped it. */
  lemma {:induction false} StepAcknowledges(w: Watch, account: string, log: seq<SubmittedEvent>, step: Step, id: string)
    requires Act(w, account, log, step).acked > w.acked
    ensures step.Handle? && w.acked < |log| && Act(w, account, log, step).acked == w.acked + 1
    ensures !step.answers.ack.NotAcked?
    ensures Names(account, log[w.acked], id) ==>
              HistoryOf(Act(w, account, log, step), id) != [] || Skips(step.answers)
  {
    hide Strip, IsTerminal, TrackedText, RepolledText, Lower, History;
    if step.Handle? && w.acked < |log| {
      AcknowledgedExactly(w, account, log[w.acked], step.answers, step.nextCheckAt);
      if step.answers.broker.Found? {
        HistoryAppend(w.published, Publication(id, Field(step.answers.broker.status)), id);
      }
    }
  }

  /**
   Over any lives, faults and restarts included: every order of this account whose event is acknowledged has a
   published status, or the handling that acknowledged it met a 404, a garbled body or a refused publish.
   */
  lemma {:induction false} NothingIsLost(account: string, log: seq<SubmittedEvent>, steps: seq<Step>, k: nat,
                                         id: string)
    requires k < Live(Start, account, log, steps).acked
    ensures k < |log|
    ensures Names(account, log[k], id) ==>
              HistoryOf(Live(Start, account, log, steps), id) != [] || exists j :: SkippedBy(account, log, steps, j, k)
    decreases |steps|
  {
    hide Act, HistoryOf, Strip, Names, Skips;
    if steps != [] {
      var before, last := steps[..|steps| - 1], steps[|steps| - 1];
      assert steps == before + [last];
      LiveSnoc(Start, account, log, before, last);
      var w := Live(Start, account, log, before);
      StepPublishes(w, account, log, last, id);
      if k < w.acked {
        NothingIsLost(account, log, before, k, id);
        if j: nat :| SkippedBy(account, log, before, j, k) {
          assert before[..j] == steps[..j];
          assert SkippedBy(account, log, steps, j, k);
        }
      } else {
        StepAcknowledges(w, account, log, last, id);
        assert steps[..|before|] == before;
        if Skips(last.answers) {
          assert SkippedBy(account, log, steps, |before|, k);
        }
      }
    }
  }

  // ----- when the future is safe -----

  /**
   One due re-check: whatever status text the broker answers, the history stays orderly, exactly when the watch set
   remembers the last status published and that one is not terminal.
   */
  lemma {:induction false} RecheckIsSafeExactly(w: Watch, id: string, now: int, interval: int)
    requires id in w.pending && w.pending[id].nextCheckAt <= now
    requires HistoryOf(w, id) != [] && Orderly(HistoryOf(w, id))
    ensures (forall text: string :: Orderly(HistoryOf(Rechecked(w, id, text, now, interval), id))) <==> Remembers(w, id)
  {
    hide Orderly, IsTerminal, History, Lower, Rechecked;
    forall text: string
      ensures Orderly(HistoryOf(Rechecked(w, id, text, now, interval), id)) <==>
                var h := HistoryOf(w, id);
                Lower(text) == Lower(w.pending[id].lastStatus) || (h[|h| - 1] != Lower(text) && !IsTerminal(h[|h| - 1]))
    {
      RecheckedOrderly(w, id, text, now, interval);
    }
    if !Remembers(w, id) {
      var text := Spoiler(w, id);
      assert !Orderly(HistoryOf(Rechecked(w, id, text, now, interval), id)) by {
        SpoilerSpoils(w, id);
      }
    }
  }

  function Rechecked(w: Watch, id: string, text: string, now: int, interval: int): Watch {
    RepollOne(w, id, Found(Status(text)), Sent, now, interval).watch
  }

  lemma {:induction false} RecheckedOrderly(w: Watch, id: string, text: string, now: int, interval: int)
    requires id in w.pending && w.pending[id].nextCheckAt <= now
    requires HistoryOf(w, id) != [] && Orderly(HistoryOf(w, id))
    ensures var h := HistoryOf(w, id);
            Orderly(HistoryOf(Rechecked(w, id, text, now, interval), id)) <==>
              Lower(text) == Lower(w.pending[id].lastStatus) || (h[|h| - 1] != Lower(text) && !IsTerminal(h[|h| - 1]))
  {
    hide Orderly, IsTerminal, History, Lower;
    HistoryAppend(w.published, Publication(id, Status(text)), id);
    OrderlyAppend(HistoryOf(w, id), Lower(text));
  }

  /**
   A status the broker could answer that would spoil the history: the last one again, or any other after a terminal one.
   */
  function Spoiler(w: Watch, id: string): string
    requires id in w.pending && HistoryOf(w, id) != []
  {
    var h := HistoryOf(w, id);
    if Lower(w.pending[id].lastStatus) != h[|h| - 1] then h[|h| - 1]
    else if h[|h| - 1] == "" then "a" else ""
  }

  lemma {:induction false} SpoilerSpoils(w: Watch, id: string)
    requires id in w.pending && HistoryOf(w, id) != [] && !Remembers(w, id)
    ensures var h, text := HistoryOf(w, id), Spoiler(w, id);
            Lower(text) != Lower(w.pending[id].lastStatus) && (h[|h| - 1] == Lower(text) || IsTerminal(h[|h| - 1]))
  {
    hide IsTerminal, History;
    HistoryIsFolded(w.published, id);
    assert Lower("") == "" && Lower("a") == "a";
  }

  /** However the process goes on, every history stays orderly as long as no fault strikes. */
  ghost predicate Safe(w: Watch, account: string, log: seq<SubmittedEvent>) {
    forall more: seq<Step>, id: string ::
      Faultless(w, account, log, more) ==> Orderly(HistoryOf(Live(w, account, log, more), id))
  }

  /** After any life at all, faults included, a watched order has been published. */
  ghost predicate Grounded(w: Watch) {
    forall id: string :: id in w.pending ==> HistoryOf(w, id) != []
  }

  lemma {:induction false} StepGrounds(w: Watch, account: string, log: seq<SubmittedEvent>, step: Step)
    requires Grounded(w)
    ensures Grounded(Act(w, account, log, step))
  {
    hide Strip, IsTerminal, TrackedText, RepolledText, Lower, History;
    var w' := Act(w, account, log, step);
    forall id: string | id in w'.pending ensures HistoryOf(w', id) != [] {
      match step {
        case Handle(n, _) =>
          if w.acked < |log| && n.broker.Found? {
            HistoryAppend(w.published, Publication(Strip(log[w.acked].orderId), Field(n.broker.status)), id);
          }
        case Recheck(c, _, _) =>
          if c.broker.Found? {
            HistoryAppend(w.published, Publication(c.id, Field(c.broker.status)), id);
          }
        case Restart =>
      }
    }
  }

  lemma {:induction false} LifeGrounds(w: Watch, account: string, log: seq<SubmittedEvent>, steps: seq<Step>)
    requires Grounded(w)
    ensures Grounded(Live(w, account, log, steps))
    decreases |steps|
  {
    hide Grounded, Act;
    if steps != [] {
      StepGrounds(w, account, log, steps[0]);
      LifeGrounds(Act(w, account, log, steps[0]), account, log, steps[1..]);
    }
  }

  /** A continuation without faults that publishes one more status of an order still to come, whichever it is. */
  lemma {:induction false} PublishFromStream(w: Watch, account: string, log: seq<SubmittedEvent>, id: string,
                                             text: string)
      returns (more: seq<Step>)
    requires StillToCome(account, log, w.acked, id)
    ensures Faultless(w, account, log, more)
    ensures HistoryOf(Live(w, account, log, more), id) == HistoryOf(w, id) + [Lower(text)]
    decreases |log| - w.acked
  {
    hide Strip, Lower, IsTerminal, History;
    if StillToCome(account, log, w.acked + 1, id) {
      var skip := Handle(Answers(Unknown, NotSent, Acked), 0);
      var rest := PublishFromStream(w.(acked := w.acked + 1), account, log, id, text);
      more := [skip] + rest;
      assert Act(w, account, log, skip) == w.(acked := w.acked + 1);
    } else {
      var step := Handle(Answers(Found(Status(text)), Sent, Acked), 0);
      more := [step];
      assert Names(account, log[w.acked], id);
      HistoryAppend(w.published, Publication(id, Status(text)), id);
      assert Live(w, account, log, more) == Act(w, account, log, step) by {
        assert more[1..] == [];
      }
    }
  }

  /** A continuation without faults that disorders the history of an order that is published and still to come. */
  lemma {:induction false} SpoilByStream(w: Watch, account: string, log: seq<SubmittedEvent>, id: string)
      returns (more: seq<Step>)
    requires StillToCome(account, log, w.acked, id) && HistoryOf(w, id) != []
    ensures Faultless(w, account, log, more) && !Orderly(HistoryOf(Live(w, account, log, more), id))
  {
    hide Lower, IsTerminal, Orderly, History, Faultless, Live;
    var h := HistoryOf(w, id);
    more := PublishFromStream(w, account, log, id, h[|h| - 1]);
    HistoryIsFolded(w.published, id);
    OrderlyAppend(h, h[|h| - 1]);
  }

  /** One re-check that disorders the history of a watched order that is not remembered as last published. */
  lemma {:induction false} SpoilByRecheck(w: Watch, account: string, log: seq<SubmittedEvent>, id: string)
      returns (more: seq<Step>)
    requires id in w.pending && HistoryOf(w, id) != [] && Orderly(HistoryOf(w, id)) && !Remembers(w, id)
    ensures Faultless(w, account, log, more) && !Orderly(HistoryOf(Live(w, account, log, more), id))
  {
    hide Lower, IsTerminal, Orderly, History, Remembers, Spoiler;
    var step := Recheck(Check(id, Found(Status(Spoiler(w, id))), Sent), w.pending[id].nextCheckAt, 0);
    more := [step];
    SpoilerSpoils(w, id);
    RecheckedOrderly(w, id, Spoiler(w, id), w.pending[id].nextCheckAt, 0);
    assert more[1..] == [];
  }

  /**
   After any life, faults included: no continuation without faults can ever disorder a history exactly when every
   history is orderly, every published order is past in the stream, and every watched order is remembered as last
   published and not terminal.
   */
  lemma {:induction false} SafeExactlyInStep(account: string, log: seq<SubmittedEvent>, steps: seq<Step>)
    ensures var w := Live(Start, account, log, steps);
            Safe(w, account, log) <==> AllFine(w, account, log)
  {
    hide Live, Faultless, Orderly, HistoryOf, Remembers, AllWatched;
    var w := Live(Start, account, log, steps);
    LifeGrounds(Start, account, log, steps);
    if AllFine(w, account, log) {
      forall more: seq<Step>, id: string | Faultless(w, account, log, more)
        ensures Orderly(HistoryOf(Live(w, account, log, more), id))
      {
        LifeKeepsExactly(w, account, log, more);
        assert Fine(Live(w, account, log, more), account, log, id);
      }
    } else {
      var id :| !Fine(w, account, log, id);
      if !Orderly(HistoryOf(w, id)) {
        NoStep(w, account, log);
        assert !Safe(w, account, log);
      } else if id in w.pending && !Remembers(w, id) {
        var more := SpoilByRecheck(w, account, log, id);
      } else {
        var more := SpoilByStream(w, account, log, id);
      }
    }
  }

  lemma {:induction false} NoStep(w: Watch, account: string, log: seq<SubmittedEvent>)
    ensures Faultless(w, account, log, []) && Live(w, account, log, []) == w
  {
  }

  lemma {:induction false} FilledIsTerminal()
    ensures IsTerminal("filled")
  {
    assert Lower("filled") == "filled";
  }

  /**
   Over any lives of one agent's process, on any stream and with any answers: at every moment every order's
   published statuses are orderly (none twice in a row, nothing after a terminal one) and in step with the stream
   and the watch set, and so safe in the future, exactly when no fault strikes; that is, when no first check is
   published whose event will be handed over again, and no re-check publishes a change with a lost reply or without a
   `status`. Then at most one filled event is published per order, and the watch set is exactly the published orders
   that are not terminal and were not let go. The broker may answer anything, even move an order out of a terminal
   status.
   */
  lemma {:induction false} WatchContract(account: string, log: seq<SubmittedEvent>, steps: seq<Step>, id: string)
    ensures (forall k :: 0 <= k <= |steps| ==> AllFine(Live(Start, account, log, steps[..k]), account, log))
            <==> Faultless(Start, account, log, steps)
    ensures (forall k :: 0 <= k <= |steps| ==> Safe(Live(Start, account, log, steps[..k]), account, log))
            <==> Faultless(Start, account, log, steps)
    ensures Faultless(Start, account, log, steps) ==>
              var w := Live(Start, account, log, steps);
              var h := HistoryOf(w, id);
              && Orderly(h)
              && (forall j, k :: 0 <= j < |h| && 0 <= k < |h| && h[j] == "filled" && h[k] == "filled" ==> j == k)
              && (id in w.pending <==> h != [] && id !in w.dropped && !IsTerminal(h[|h| - 1]))
  {
    hide Live, Faultless, Safe, HistoryOf, IsTerminal;
    StartIsFine(account, log);
    LifeKeepsExactly(Start, account, log, steps);
    forall k | 0 <= k <= |steps|
      ensures Safe(Live(Start, account, log, steps[..k]), account, log)
              <==> AllFine(Live(Start, account, log, steps[..k]), account, log)
    {
      SafeExactlyInStep(account, log, steps[..k]);
    }
    if Faultless(Start, account, log, steps) {
      var w := Live(Start, account, log, steps);
      assert Fine(w, account, log, id) && Watched(w, id);
      var h := HistoryOf(w, id);
      FilledIsTerminal();
      forall j, k | 0 <= j < |h| && 0 <= k < |h| && h[j] == "filled" && h[k] == "filled" ensures j == k {
        assert IsTerminal(h[j]) && IsTerminal(h[k]);
      }
    }
  }

  /**
   An order that is neither watched nor still to come is never heard of again, whatever strikes: after a restart, a
   404 or an acknowledgement whose reply was lost, its later fill is not published.
   */
  lemma {:induction false} LetGoIsSilent(w: Watch, account: string, log: seq<SubmittedEvent>, more: seq<Step>,
                                         id: string)
    requires id !in w.pending && !StillToCome(account, log, w.acked, id)
    ensures var w' := Live(w, account, log, more);
            HistoryOf(w', id) == HistoryOf(w, id) && id !in w'.pending
    decreases |more|
  {
    hide HandleSubmitted, History, Names;
    if more != [] {
      var w' := Act(w, account, log, more[0]);
      match more[0] {
        case Handle(n, at) =>
          if w.acked < |log| {
            HandleFrame(w, account, log[w.acked], n, at, id);
          }
        case Recheck(c, now, interval) =>
          if c.id != id {
            RepollFrame(w, c, now, interval, id);
          }
        case Restart =>
      }
      assert !StillToCome(account, log, w'.acked, id);
      LetGoIsSilent(w', account, log, more[1..], id);
    }
  }

  /** One due re-check publishes one more status of a watched order, whichever it is, if it is a change. */
  lemma {:induction false} PublishByRecheck(w: Watch, account: string, log: seq<SubmittedEvent>, id: string,
                                            text: string)
      returns (more: seq<Step>)
    requires id in w.pending && Lower(text) != Lower(w.pending[id].lastStatus)
    ensures Faultless(w, account, log, more)
    ensures HistoryOf(Live(w, account, log, more), id) == HistoryOf(w, id) + [Lower(text)]
  {
    hide Lower, IsTerminal, History;
    var step := Recheck(Check(id, Found(Status(text)), Sent), w.pending[id].nextCheckAt, 0);
    more := [step];
    HistoryAppend(w.published, Publication(id, Status(text)), id);
    assert more[1..] == [];
  }

  /** Some continuation publishes something more for `id`. */
  ghost predicate CanBeHeardOf(w: Watch, account: string, log: seq<SubmittedEvent>, id: string) {
    exists more :: HistoryOf(Live(w, account, log, more), id) != HistoryOf(w, id)
  }

  /** An order can be heard of again exactly when it is watched or still to come; and then without any fault. */
  lemma {:induction false} HeardOfExactly(w: Watch, account: string, log: seq<SubmittedEvent>, id: string)
    ensures CanBeHeardOf(w, account, log, id) <==> id in w.pending || StillToCome(account, log, w.acked, id)
    ensures CanBeHeardOf(w, account, log, id) ==>
              exists more :: Faultless(w, account, log, more)
                && HistoryOf(Live(w, account, log, more), id) != HistoryOf(w, id)
  {
    hide HistoryOf, Live, Faultless, StillToCome, Lower;
    if id in w.pending {
      LettersFold();
      var text := if Lower(w.pending[id].lastStatus) == "a" then "b" else "a";
      var more := PublishByRecheck(w, account, log, id, text);
    } else if StillToCome(account, log, w.acked, id) {
      var more := PublishFromStream(w, account, log, id, "a");
    } else {
      forall more: seq<Step> ensures HistoryOf(Live(w, account, log, more), id) == HistoryOf(w, id) {
        LetGoIsSilent(w, account, log, more, id);
      }
    }
  }

  lemma {:induction false} LettersFold()
    ensures Lower("a") == "a" && Lower("b") == "b" && "a" != "b"
  {
    assert "a"[0] != "b"[0];
  }

  /**
   After any life, a restart loses a watched order for good exactly when its event is past in the stream; after a
   life without faults, it loses every watched order.
   */
  lemma {:induction false} RestartLoses(account: string, log: seq<SubmittedEvent>, steps: seq<Step>, id: string)
    requires id in Live(Start, account, log, steps).pending
    ensures var w := Live(Start, account, log, steps);
            var w' := Act(w, account, log, Restart);
            && CanBeHeardOf(w, account, log, id)
            && (CanBeHeardOf(w', account, log, id) <==> StillToCome(account, log, w.acked, id))
            && (Faultless(Start, account, log, steps) ==> !CanBeHeardOf(w', account, log, id))
  {
    hide Live, Faultless, HistoryOf, Orderly, Remembers, StillToCome, CanBeHeardOf;
    var w := Live(Start, account, log, steps);
    HeardOfExactly(w, account, log, id);
    HeardOfExactly(Act(w, account, log, Restart), account, log, id);
    LifeGrounds(Start, account, log, steps);
    if Faultless(Start, account, log, steps) {
      StartIsFine(account, log);
      LifeKeepsExactly(Start, account, log, steps);
      assert Fine(w, account, log, id);
    }
  }

  // ----- each fault does harm -----

  const Mine := SubmittedEvent("A", "o1")

  /** The only order's publications, when two in a row carry the same status. */
  lemma {:induction false} RepeatIsDisorder(before: seq<Publication>, p: Publication)
    ensures !Orderly(History(before + [p] + [p], p.orderId))
  {
    HistoryAppend(before + [p], p, p.orderId);
    HistoryAppend(before, p, p.orderId);
    var h := History(before + [p] + [p], p.orderId);
    assert h[|h| - 1] == h[|h| - 2];
  }

  lemma {:induction false} Unfold(w: Watch, first: Step, rest: seq<Step>)
    ensures Live(w, "A", [Mine], [first] + rest) == Live(Act(w, "A", [Mine], first), "A", [Mine], rest)
    ensures Live(w, "A", [Mine], [first]) == Act(w, "A", [Mine], first)
  {
    hide Act;
    assert ([first] + rest)[1..] == rest;
    assert [first][1..] == [];
  }

  /** A status published with a lost reply is published again by the next check. */
  lemma {:induction false} LostPublishRepeats()
    ensures exists steps :: !Orderly(HistoryOf(Live(Start, "A", [Mine], steps), "o1"))
  {
    hide Strip, Lower, IsTerminal, Orderly, History, Live;
    Concrete();
    var first := Handle(Answers(Found(Status("new")), Sent, Acked), 0);
    var lost := Recheck(Check("o1", Found(Status("open")), SentReplyLost), 0, 5);
    var again := Recheck(Check("o1", Found(Status("open")), Sent), 0, 5);
    var w1 := Act(Start, "A", [Mine], first);
    assert w1.pending["o1"] == PendingOrder("new", 0);
    var w2 := Act(w1, "A", [Mine], lost);
    var w3 := Act(w2, "A", [Mine], again);
    var p := Publication("o1", Status("open"));
    assert w3.published == w1.published + [p] + [p];
    RepeatIsDisorder(w1.published, p);
    Unfold(Start, first, [lost] + [again]);
    Unfold(w1, lost, [again]);
    Unfold(w2, again, []);
  }

  /** A published first check whose acknowledgement failed is published again on redelivery. */
  lemma {:induction false} FailedAckRepeats()
    ensures exists steps :: !Orderly(HistoryOf(Live(Start, "A", [Mine], steps), "o1"))
  {
    hide Strip, Lower, IsTerminal, Orderly, History, Live;
    Concrete();
    var unacked := Handle(Answers(Found(Status("new")), Sent, NotAcked), 0);
    var acked := Handle(Answers(Found(Status("new")), Sent, Acked), 0);
    var w1 := Act(Start, "A", [Mine], unacked);
    var w2 := Act(w1, "A", [Mine], acked);
    var p := Publication("o1", Status("new"));
    assert w2.published == [] + [p] + [p];
    RepeatIsDisorder([], p);
    Unfold(Start, unacked, [acked]);
    Unfold(w1, acked, []);
  }

  /** Two replies without a status publish null twice: the first check remembers "None", the re-poll reads "". */
  lemma {:induction false} MissingStatusRepeats()
    ensures exists steps :: !Orderly(HistoryOf(Live(Start, "A", [Mine], steps), "o1"))
  {
    hide Strip, Lower, IsTerminal, Orderly, History, Live;
    Concrete();
    var first, again := Handle(Answers(Found(Missing), Sent, Acked), 0),
      Recheck(Check("o1", Found(Missing), Sent), 0, 5);
    var w1 := Act(Start, "A", [Mine], first);
    assert w1.pending["o1"] == PendingOrder("None", 0);
    var w2 := Act(w1, "A", [Mine], again);
    var p := Publication("o1", Null);
    assert w2.published == [] + [p] + [p];
    RepeatIsDisorder([], p);
    Unfold(Start, first, [again]);
    Unfold(w1, again, []);
  }

  /** A watched order that a restart loses: its fill, published by the next check otherwise, never is. */
  lemma {:induction false} RestartLosesAFill()
    ensures exists steps, more :: "o1" in Live(Start, "A", [Mine], steps).pending
              && HistoryOf(Live(Live(Start, "A", [Mine], steps), "A", [Mine], more), "o1") == ["new", "filled"]
              && !CanBeHeardOf(Act(Live(Start, "A", [Mine], steps), "A", [Mine], Restart), "A", [Mine], "o1")
  {
    hide Strip, Lower, IsTerminal, History, Live, Faultless, CanBeHeardOf;
    Concrete();
    FilledFolds();
    var first := Handle(Answers(Found(Status("new")), Sent, Acked), 0);
    var w := Act(Start, "A", [Mine], first);
    HistoryAppend([], Publication("o1", Status("new")), "o1");
    NothingPublished("o1");
    assert w.published == [] + [Publication("o1", Status("new"))];
    Unfold(Start, first, []);
    assert !StillToCome("A", [Mine], w.acked, "o1");
    RestartLoses("A", [Mine], [first], "o1");
    var more := PublishByRecheck(w, "A", [Mine], "o1", "filled");
    assert HistoryOf(Live(w, "A", [Mine], more), "o1") == ["new", "filled"];
  }

  lemma {:induction false} FilledFolds()
    ensures Lower("filled") == "filled" && "filled" != "new"
  {
    assert |"filled"| != |"new"|;
  }

  lemma {:induction false} NothingPublished(id: string)
    ensures History([], id) == []
  {
  }

  lemma {:induction false} Concrete()
    ensures Strip("A") == "A" && Strip("o1") == "o1"
    ensures Lower("new") == "new" && Lower("open") == "open" && Lower("None") == "none" && Lower("") == ""
    ensures "new" != "open" && "none" != ""
    ensures !IsTerminal("new") && !IsTerminal("open") && !IsTerminal("None") && !IsTerminal("")
  {
    assert "new"[0] != "open"[0];
  }

  // ----- the loops -----

  /** One account's status loop. */
  class StatusLoop {
    const accountId: string
    var pending: map<string, PendingOrder>
    var published: seq<Publication>
    ghost var acked: nat
    ghost var dropped: set<string>

    constructor (accountId: string)
      ensures this.accountId == accountId && Abs() == Start
    {
      this.accountId := accountId;
      pending, published, acked, dropped := map[], [], 0, {};
    }

    ghost function Abs(): Watch
      reads this
    {
      Watch(pending, published, acked, dropped)
    }

    method PublishStatus(id: string, status: StatusField)
      modifies this`published
      ensures Abs() == Publish(old(Abs()), id, status)
    {
      published := published + [Publication(id, Field(status))];
    }

    /** `subscriber.ack(event)`: the group's record of what this consumer is done with. */
    method Confirm(ack: Ack)
      modifies this`acked
      ensures Abs() == Acknowledge(old(Abs()), ack)
    {
      if !ack.NotAcked? {
        acked := acked + 1;
      }
    }

    method TrackIfPending(id: string, status: StatusField, nextCheckAt: int)
      modifies this`pending
      ensures Abs() == Track(old(Abs()), id, status, nextCheckAt)
    {
      var text := TrackedText(status);
      if IsTerminal(text) {
        pending := pending - {id};
        return;
      }
      pending := pending[id := PendingOrder(text, nextCheckAt)];
    }

    /** One event of `poll_order_status_once`; `goOn` is false where the loop breaks or raises. */
    method HandleEvent(event: SubmittedEvent, n: Answers, nextCheckAt: int) returns (goOn: bool)
      modifies this
      ensures Handled(Abs(), goOn) == HandleSubmitted(old(Abs()), accountId, event, n, nextCheckAt)
    {
      hide Strip, Lower, IsTerminal, TrackedText, Track, Publish;
      var id := Strip(event.orderId);
      if Strip(event.account) != accountId || id == "" {
        Confirm(n.ack);
        return n.ack.Acked?;
      }
      match n.broker {
        case Failed => return false;
        case Unknown =>
        case Garbled =>
        case Found(status) =>
          if n.publish.NotSent? {
            return false;
          }
          if !n.publish.TooLarge? {
            PublishStatus(id, status);
            if n.publish.SentReplyLost? {
              return false;
            }
            Confirm(n.ack);
            if n.ack.AckReplyLost? {
              dropped := dropped + {id};
            }
            if n.ack.Acked? {
              TrackIfPending(id, status, nextCheckAt);
            }
            return n.ack.Acked?;
          }
      }
      Confirm(n.ack);
      return n.ack.Acked?;
    }

    /** `poll_order_status_once` over the batch the group handed out. */
    method PollOrderStatusOnce(events: seq<SubmittedEvent>, answers: seq<Answers>, nextCheckAt: int)
      modifies this
      ensures Abs() == PollSpec(old(Abs()), accountId, events, answers, nextCheckAt)
    {
      hide HandleSubmitted, Abs;
      var i := 0;
      ghost var goal := PollSpec(Abs(), accountId, events, answers, nextCheckAt);
      while i < |events| && i < |answers|
        invariant 0 <= i <= |events| && i <= |answers|
        invariant PollSpec(Abs(), accountId, events[i..], answers[i..], nextCheckAt) == goal
      {
        assert events[i..][1..] == events[i + 1..] && answers[i..][1..] == answers[i + 1..];
        ghost var h := HandleSubmitted(Abs(), accountId, events[i], answers[i], nextCheckAt);
        var goOn := HandleEvent(events[i], answers[i], nextCheckAt);
        assert h.watch == Abs() && h.goOn == goOn;
        i := i + 1;
        if !goOn {
          return;
        }
      }
    }

    /** One watched order of `repoll_pending_once`; `goOn` is false where its publish raises. */
    method RepollEntry(c: Check, now: int, interval: int) returns (goOn: bool)
      modifies this
      ensures Handled(Abs(), goOn) == RepollOne(old(Abs()), c.id, c.broker, c.publish, now, interval)
    {
      hide Lower, IsTerminal, RepolledText, Publish;
      if c.id !in pending || pending[c.id].nextCheckAt > now {
        return true;
      }
      var entry := pending[c.id];
      match c.broker {
        case Unknown =>
          pending := pending - {c.id};
          dropped := dropped + {c.id};
        case Failed =>
          pending := pending[c.id := entry.(nextCheckAt := now + interval)];
        case Garbled =>
          pending := pending[c.id := entry.(nextCheckAt := now + interval)];
        case Found(field) =>
          var status := RepolledText(field);
          if Lower(status) != Lower(entry.lastStatus) {
            if c.publish.Sent? || c.publish.SentReplyLost? {
              PublishStatus(c.id, field);
            }
            if !c.publish.Sent? {
              return false;
            }
          }
          if IsTerminal(status) {
            pending := pending - {c.id};
          } else {
            pending := pending[c.id := PendingOrder(status, now + interval)];
          }
      }
      return true;
    }

    /** `repoll_pending_once`: `checks` lists the watch set's orders in its order, with the broker's answers. */
    method RepollPendingOnce(checks: seq<Check>, now: int, interval: int)
      modifies this
      ensures Abs() == RepollSpec(old(Abs()), checks, now, interval)
    {
      hide RepollOne, Abs;
      var i := 0;
      ghost var goal := RepollSpec(Abs(), checks, now, interval);
      while i < |checks|
        invariant 0 <= i <= |checks|
        invariant RepollSpec(Abs(), checks[i..], now, interval) == goal
      {
        assert checks[i..][1..] == checks[i + 1..];
        ghost var h := RepollOne(Abs(), checks[i].id, checks[i].broker, checks[i].publish, now, interval);
        var goOn := RepollEntry(checks[i], now, interval);
        assert h.watch == Abs() && h.goOn == goOn;
        i := i + 1;
        if !goOn {
          return;
        }
      }
    }
  }
}
