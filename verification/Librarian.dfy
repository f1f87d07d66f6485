/**
 The Strategy Librarian: verdict events become registry transitions and lifecycle events
 (src/shrap/research/librarian_service.py). The verdict stream is the list of its well-formed entries; the
 consumer group hands out the oldest unacknowledged ones first (see ConsumerGroup), so what is acknowledged is
 always a prefix of it, and `acked` is that prefix's length.
 */
module Librarian {
  import opened Wrappers
  import opened Text
  import opened Registry

  /** A payload value: the key is absent or not a string, or it is text. */
  datatype Field = NoText | Text(value: string)

  /** A verdict event; `inline` is false when the envelope carries no payload. */
  datatype Verdict = Verdict(inline: bool, strategyId: Field, verdict: Field, toStage: Field, fromStage: Field)

  /** What a verdict asks for. */
  datatype Instruction = Malformed | Hold | Move(id: Id, to: Status, expected: Option<Status>)

  function Trimmed(f: Field): Option<string> {
    if f.Text? && Strip(f.value) != "" then Some(Strip(f.value)) else None
  }

  function StatusNamed(text: string): Status {
    match text
    case "hypothesis" => Hypothesis
    case "paper" => Paper
    case "small-size-paper" => SmallSizePaper
    case "live-paper" => LivePaper
    case "kill-review" => KillReview
    case "kill-review-mike" => KillReviewMike
    case "killed" => Killed
    case "retired" => Retired
    case _ => Unlisted(text)
  }

  const NoopVerdicts := {"hold-for-data", "accept-refit", "reject-refit-keep-prior"}

  function Instructs(v: Verdict): Instruction {
    var id, verdict := Trimmed(v.strategyId), Trimmed(v.verdict);
    if !v.inline || id.None? || verdict.None? then Malformed
    else if verdict.value in NoopVerdicts then Hold
    else
      var to, from := Trimmed(v.toStage), Trimmed(v.fromStage);
      if to.None? then Malformed
      else Move(id.value, StatusNamed(to.value), if from.Some? then Some(StatusNamed(from.value)) else None)
  }

  /** The strategy a moving verdict names. */
  function IdOf(v: Verdict): Id {
    if Instructs(v).Move? then Instructs(v).id else ""
  }

  /** `stream_for_transition` of a transition with a from-status. */
  function StreamFor(to: Status): string {
    match to
    case Killed => "research.strategy.killed"
    case Retired => "research.strategy.retired"
    case KillReview => "research.strategy.demoted"
    case KillReviewMike => "research.strategy.demoted"
    case _ => "research.strategy.promoted"
  }

  /** A published lifecycle event; `verdict` is the stream position of the verdict it answers. */
  datatype Lifecycle = Lifecycle(verdict: nat, stream: string, id: Id, from: Status, to: Status)

  // ----- faults: what each await meets; a crash is a lost reply or a failure after which nothing runs -----

  datatype DbFate = Commits | CommitsReplyLost | DbFails
  datatype PublishFate = Published | PublishedReplyLost | PublishFails | TooLarge
  datatype AckFate = Acked | AckedReplyLost | AckFails
  datatype Fates = Fates(db: DbFate, publish: PublishFate, ack: AckFate)

  // ----- one verdict -----

  datatype Answer = Skipped | NoChange | Replied(outcome: Outcome) | Systemic
  datatype Applied = Applied(state: State, answer: Answer)

  /** `apply_verdict_event`; a target outside the state machine is refused before the database is asked. */
  function ApplyVerdict(s: State, v: Verdict, db: DbFate): Applied {
    match Instructs(v)
    case Malformed => Applied(s, Skipped)
    case Hold => Applied(s, NoChange)
    case Move(id, to, expected) =>
      var step := Transitioned(s, id, to, expected);
      if to.Unlisted? || db.Commits? then Applied(step.state, Replied(step.outcome))
      else if db.DbFails? then Applied(s, Systemic)
      else Applied(step.state, Systemic)
  }

  /** The registry, what was published, and how many verdicts are acknowledged. */
  datatype Desk = Desk(state: State, published: seq<Lifecycle>, acked: nat)

  datatype Handled = Handled(desk: Desk, goOn: bool, applied: nat)

  function Ack(d: Desk, fate: AckFate, applied: nat): Handled {
    match fate
    case Acked => Handled(d.(acked := d.acked + 1), true, applied)
    case AckedReplyLost => Handled(d.(acked := d.acked + 1), false, 0)
    case AckFails => Handled(d, false, 0)
  }

  /** The loop body of `poll_once` for the verdict at position `d.acked`; `goOn` is false where it breaks or raises. */
  function Handle(d: Desk, v: Verdict, n: Fates): Handled {
    var r := ApplyVerdict(d.state, v, n.db);
    var d' := d.(state := r.state);
    match r.answer
    case Systemic => Handled(d', false, 0)
    case Skipped => Ack(d', n.ack, 0)
    case NoChange => Ack(d', n.ack, 0)
    case Replied(outcome) =>
      if !outcome.Moved? then Ack(d', n.ack, 0) else
      var event := Lifecycle(d.acked, StreamFor(outcome.to), IdOf(v), outcome.from, outcome.to);
      match n.publish
      case PublishFails => Handled(d', false, 0)
      case PublishedReplyLost => Handled(d'.(published := d.published + [event]), false, 0)
      case TooLarge => Ack(d', n.ack, 0)
      case Published => Ack(d'.(published := d.published + [event]), n.ack, 1)
  }

  function PollSpec(d: Desk, events: seq<Verdict>, fates: seq<Fates>): Desk
    decreases |events|
  {
    if events == [] || fates == [] then d
    else
      var h := Handle(d, events[0], fates[0]);
      if h.goOn then PollSpec(h.desk, events[1..], fates[1..]) else h.desk
  }

  function PollCount(d: Desk, events: seq<Verdict>, fates: seq<Fates>): nat
    decreases |events|
  {
    if events == [] || fates == [] then 0
    else
      var h := Handle(d, events[0], fates[0]);
      h.applied + if h.goOn then PollCount(h.desk, events[1..], fates[1..]) else 0
  }

  // ----- a life of polls, restarts included -----

  /** One poll: how many verdicts it reads, and what they meet. */
  datatype Poll = Poll(count: nat, fates: seq<Fates>)

  function Batch(verdicts: seq<Verdict>, acked: nat, count: nat): seq<Verdict> {
    if acked >= |verdicts| then []
    else if acked + count >= |verdicts| then verdicts[acked..]
    else verdicts[acked..acked + count]
  }

  function Life(d: Desk, verdicts: seq<Verdict>, polls: seq<Poll>): Desk
    decreases |polls|
  {
    if polls == [] then d
    else Life(PollSpec(d, Batch(verdicts, d.acked, polls[0].count), polls[0].fates), verdicts, polls[1..])
  }

  // ----- each verdict once, in order -----

  function Once(s: State, v: Verdict): State {
    ApplyVerdict(s, v, Commits).state
  }

  function InOrder(s: State, verdicts: seq<Verdict>): State {
    if verdicts == [] then s else Once(InOrder(s, verdicts[..|verdicts| - 1]), verdicts[|verdicts| - 1])
  }

  predicate Moves(s: State, v: Verdict) {
    var r := ApplyVerdict(s, v, Commits);
    r.answer.Replied? && r.answer.outcome.Moved?
  }

  // ----- what a verdict asks, field by field -----

  predicate Filled(f: Field) {
    f.Text? && Strip(f.value) != ""
  }

  /** A status as it is written. */
  function StatusText(s: Status): string {
    match s
    case Hypothesis => "hypothesis"
    case Paper => "paper"
    case SmallSizePaper => "small-size-paper"
    case LivePaper => "live-paper"
    case KillReview => "kill-review"
    case KillReviewMike => "kill-review-mike"
    case Killed => "killed"
    case Retired => "retired"
    case Unlisted(text) => text
  }

  lemma {:induction false} NamedExactly(text: string, s: Status)
    requires !s.Unlisted?
    ensures StatusNamed(text) == s <==> text == StatusText(s)
  {
    var lengths := (|"hypothesis"|, |"paper"|, |"small-size-paper"|, |"live-paper"|, |"kill-review"|,
                    |"kill-review-mike"|, |"killed"|, |"retired"|);
    assert lengths == (10, 5, 16, 10, 11, 16, 6, 7);
    assert "hypothesis"[0] == 'h' && "live-paper"[0] == 'l' && "small-size-paper"[0] == 's'
           && "kill-review-mike"[0] == 'k';
  }

  /**
   The payload asks for a move: it is inline, names a strategy, a verdict that is not one of the three that change
   nothing, and a stage.
   */
  predicate AsksToMove(v: Verdict) {
    && v.inline && Filled(v.strategyId) && Filled(v.verdict) && Filled(v.toStage)
    && Strip(v.verdict.value) != "hold-for-data" && Strip(v.verdict.value) != "accept-refit"
    && Strip(v.verdict.value) != "reject-refit-keep-prior"
  }

  lemma {:induction false} InstructsExactly(v: Verdict)
    ensures Instructs(v).Move? <==> AsksToMove(v)
    ensures AsksToMove(v) ==>
              && Instructs(v).id == Strip(v.strategyId.value) && Instructs(v).to == StatusNamed(Strip(v.toStage.value))
              && Instructs(v).expected
                 == if Filled(v.fromStage) then Some(StatusNamed(Strip(v.fromStage.value))) else None
  {
    hide Strip, StatusNamed;
  }

  /**
   A verdict moves its strategy exactly when it asks for a move of a registered strategy to a stage it may move to,
   and its from-stage is blank or names the strategy's current one. Then the strategy is at the stage it names, and
   nothing else changes but for one entry of the log.
   */
  lemma {:induction false} MovesExactly(s: State, v: Verdict)
    ensures Moves(s, v) <==>
              && AsksToMove(v) && Strip(v.strategyId.value) in s.rows
              && var now := s.rows[Strip(v.strategyId.value)].status;
                 && (!Filled(v.fromStage) || Strip(v.fromStage.value) == StatusText(now))
                 && exists to: Status :: StatusText(to) == Strip(v.toStage.value) && !to.Unlisted? && to in Allowed(now)
    ensures Moves(s, v) ==>
              var id, after := Strip(v.strategyId.value), Once(s, v);
              && after.rows.Keys == s.rows.Keys && StatusText(after.rows[id].status) == Strip(v.toStage.value)
              && (forall x :: x in s.rows ==>
                    after.rows[x] == if x == id then s.rows[x].(status := after.rows[x].status) else s.rows[x])
              && after.log == s.log + [Entry(id, Some(s.rows[id].status), after.rows[id].status)]
    ensures !Moves(s, v) ==> Once(s, v) == s
  {
    hide Strip, StatusNamed, StatusText, Instructs, Allowed;
    InstructsExactly(v);
    if AsksToMove(v) && Strip(v.strategyId.value) in s.rows {
      var now, text := s.rows[Strip(v.strategyId.value)].status, Strip(v.toStage.value);
      ListedOrNowhere(now);
      if !now.Unlisted? && Filled(v.fromStage) {
        NamedExactly(Strip(v.fromStage.value), now);
      }
      forall to: Status | !to.Unlisted? ensures StatusNamed(text) == to <==> text == StatusText(to) {
        NamedExactly(text, to);
      }
    }
  }

  lemma {:induction false} ListedOrNowhere(s: Status)
    ensures s.Unlisted? ==> Allowed(s) == {}
    ensures forall to :: to in Allowed(s) ==> !to.Unlisted?
  {
  }

  /** The stream each move is announced on. */
  ghost predicate OnItsStream(e: Lifecycle) {
    && (e.to == Killed ==> e.stream == "research.strategy.killed")
    && (e.to == Retired ==> e.stream == "research.strategy.retired")
    && (e.to in {KillReview, KillReviewMike} ==> e.stream == "research.strategy.demoted")
    && (e.to in ActiveStages ==> e.stream == "research.strategy.promoted")
  }

  /** What one handling publishes is its verdict's own move, on that move's stream. */
  lemma {:induction false} PublishesTheMove(d: Desk, v: Verdict, n: Fates)
    ensures var h := Handle(d, v, n);
            h.desk.published != d.published ==>
              && Moves(d.state, v) && |h.desk.published| == |d.published| + 1 && d.published <= h.desk.published
              && var e, id := h.desk.published[|d.published|], Strip(v.strategyId.value);
                 && e.verdict == d.acked && e.id == id && id in d.state.rows && e.from == d.state.rows[id].status
                 && StatusText(e.to) == Strip(v.toStage.value) && !e.to.Unlisted? && OnItsStream(e)
  {
    hide Strip, StatusNamed, StatusText, Instructs, Allowed, StreamFor;
    InstructsExactly(v);
    if Moves(d.state, v) {
      var to := Instructs(v).to;
      ListedOrNowhere(d.state.rows[Instructs(v).id].status);
      NamedExactly(Strip(v.toStage.value), to);
      StreamsExactly(to);
    }
  }

  lemma {:induction false} StreamsExactly(to: Status)
    ensures forall verdict: nat, id: Id, from: Status :: OnItsStream(Lifecycle(verdict, StreamFor(to), id, from, to))
  {
  }

  /**
   A verdict is acknowledged exactly when its acknowledgement takes effect and nothing systemic came before it: the
   registry was asked and did not answer, or a move was not published for want of an answer.
   */
  lemma {:induction false} AcknowledgedExactly(d: Desk, v: Verdict, n: Fates)
    ensures var asked := AsksToMove(v)
      && exists to: Status :: !to.Unlisted? && StatusText(to) == Strip(v.toStage.value);
            var unpublished := Moves(d.state, v) && (n.publish.PublishFails? || n.publish.PublishedReplyLost?);
            var h := Handle(d, v, n);
            && h.desk.acked in {d.acked, d.acked + 1}
            && (h.desk.acked > d.acked
                <==> !n.ack.AckFails? && !(asked && !n.db.Commits?) && !(asked && unpublished))
            && (h.goOn <==> h.desk.acked > d.acked && n.ack.Acked?)
  {
    hide Strip, StatusNamed, StatusText, Instructs, Allowed, StreamFor;
    InstructsExactly(v);
    if AsksToMove(v) {
      var text := Strip(v.toStage.value);
      forall to: Status | !to.Unlisted? ensures StatusNamed(text) == to <==> text == StatusText(to) {
        NamedExactly(text, to);
      }
    }
  }

  /** No change is a well-formed verdict of the three that ask for none; whatever else asks for no move is skipped. */
  lemma {:induction false} AnswersExactly(s: State, v: Verdict, db: DbFate)
    ensures var answer := ApplyVerdict(s, v, db).answer;
            && (answer == NoChange
                <==> v.inline && Filled(v.strategyId) && Filled(v.verdict)
                     && (Strip(v.verdict.value) == "hold-for-data" || Strip(v.verdict.value) == "accept-refit"
                         || Strip(v.verdict.value) == "reject-refit-keep-prior"))
            && (answer == Skipped <==> !AsksToMove(v) && answer != NoChange)
  {
    hide Strip, StatusNamed, Transitioned;
    InstructsExactly(v);
  }

  /** A handling counts exactly when its move was published and acknowledged, both replies heard. */
  lemma {:induction false} CountsExactly(d: Desk, v: Verdict, n: Fates)
    ensures var h := Handle(d, v, n);
            && h.applied == (if Moves(d.state, v) && n == Fates(Commits, Published, Acked) then 1 else 0)
            && |d.published| + h.applied <= |h.desk.published| <= |d.published| + 1
            && (h.goOn ==> |h.desk.published| == |d.published| + h.applied)
  {
    hide Strip, StatusNamed, StreamFor;
    InstructsExactly(v);
  }

  /** A poll's count is what it published, save that its last publication may go uncounted. */
  lemma {:induction false} PollCountsPublished(d: Desk, events: seq<Verdict>, fates: seq<Fates>)
    ensures var growth := |PollSpec(d, events, fates).published| - |d.published|;
            growth - 1 <= PollCount(d, events, fates) <= growth
    decreases |events|
  {
    hide Handle;
    if events != [] && fates != [] {
      CountsExactly(d, events[0], fates[0]);
      if Handle(d, events[0], fates[0]).goOn {
        PollCountsPublished(Handle(d, events[0], fates[0]).desk, events[1..], fates[1..]);
      }
    }
  }

  /** The registry is where the acknowledged verdicts leave it, or one applied verdict further. */
  ghost predicate Settled(s0: State, verdicts: seq<Verdict>, d: Desk) {
    d.acked <= |verdicts| && d.state == InOrder(s0, verdicts[..d.acked])
  }

  ghost predicate Ahead(s0: State, verdicts: seq<Verdict>, d: Desk) {
    && d.acked < |verdicts|
    && var before := InOrder(s0, verdicts[..d.acked]);
       Moves(before, verdicts[d.acked]) && d.state == Once(before, verdicts[d.acked])
  }

  /** The event says what the verdict's own application did. */
  ghost predicate Announces(s0: State, verdicts: seq<Verdict>, e: Lifecycle) {
    && e.verdict < |verdicts|
    && var before := InOrder(s0, verdicts[..e.verdict]);
       var r := ApplyVerdict(before, verdicts[e.verdict], Commits);
       && r.answer == Replied(Moved(e.from, e.to)) && e.stream == StreamFor(e.to)
       && e.id == IdOf(verdicts[e.verdict])
  }

  ghost predicate PublishedOk(s0: State, verdicts: seq<Verdict>, d: Desk) {
    && (forall k :: 0 <= k < |d.published| ==> Announces(s0, verdicts, d.published[k]))
    && (forall j, k :: 0 <= j < k < |d.published| ==> d.published[j].verdict < d.published[k].verdict)
    && (d.published != [] ==> var last := d.published[|d.published| - 1].verdict;
          last < d.acked || (last == d.acked && Ahead(s0, verdicts, d)))
  }

  ghost predicate Inv(s0: State, verdicts: seq<Verdict>, d: Desk) {
    (Settled(s0, verdicts, d) || Ahead(s0, verdicts, d)) && PublishedOk(s0, verdicts, d)
  }

  lemma {:induction false} InOrderNext(s0: State, verdicts: seq<Verdict>, k: nat)
    requires k < |verdicts|
    ensures InOrder(s0, verdicts[..k + 1]) == Once(InOrder(s0, verdicts[..k]), verdicts[k])
  {
    assert verdicts[..k + 1][..k] == verdicts[..k];
  }

  /** A verdict that moved its strategy is refused when applied again, as already at its target. */
  lemma {:induction false} RedeliveryIsRefused(s: State, v: Verdict, db: DbFate)
    requires Moves(s, v)
    ensures Instructs(v).Move? && !Instructs(v).to.Unlisted?
    ensures Once(s, v) != s
    ensures var again := ApplyVerdict(Once(s, v), v, db);
            && again.state == Once(s, v)
            && (again.answer == Systemic
                || again.answer == Replied(Refused(InvalidMove(Instructs(v).to, Instructs(v).to))))
            && (db == Commits ==> again.answer != Systemic)
  {
    hide Instructs, Allowed;
    var m := Instructs(v);
    assert |Once(s, v).log| == |s.log| + 1;
    RepeatedMoveIsRefused(s, m.id, m.to, m.expected);
  }

  /** What any handling of a verdict does to the registry. */
  lemma {:induction false} HandleState(d: Desk, v: Verdict, n: Fates)
    ensures var h := Handle(d, v, n);
            && (h.desk.state == d.state || (Moves(d.state, v) && h.desk.state == Once(d.state, v)))
            && h.desk.acked in {d.acked, d.acked + 1}
            && (h.goOn ==> h.desk.acked == d.acked + 1)
            && (h.desk.acked == d.acked + 1 ==> h.desk.state == Once(d.state, v))
            && (h.desk.published != d.published ==>
                  && Moves(d.state, v) && h.desk.state == Once(d.state, v)
                  && exists e :: h.desk.published == d.published + [e] && e.verdict == d.acked
                       && e.stream == StreamFor(e.to)
                       && ApplyVerdict(d.state, v, Commits).answer == Replied(Moved(e.from, e.to))
                       && e.id == IdOf(v))
  {
    hide Instructs, Allowed;
  }

  lemma {:induction false} SameEvents(s0: State, verdicts: seq<Verdict>, d: Desk, d': Desk)
    requires PublishedOk(s0, verdicts, d) && d'.published == d.published && d.acked <= d'.acked
    requires Ahead(s0, verdicts, d) && d'.acked == d.acked ==> Ahead(s0, verdicts, d')
    ensures PublishedOk(s0, verdicts, d')
  {
    hide Announces, Ahead;
  }

  lemma {:induction false} OneMoreEvent(s0: State, verdicts: seq<Verdict>, d: Desk, d': Desk, e: Lifecycle)
    requires PublishedOk(s0, verdicts, d) && !Ahead(s0, verdicts, d)
    requires d'.published == d.published + [e] && e.verdict == d.acked && Announces(s0, verdicts, e)
    requires d'.acked > d.acked || (d'.acked == d.acked && Ahead(s0, verdicts, d'))
    ensures PublishedOk(s0, verdicts, d')
  {
    hide Announces, Ahead;
  }

  lemma {:induction false} HandleKeeps(s0: State, verdicts: seq<Verdict>, d: Desk, n: Fates)
    requires Inv(s0, verdicts, d) && d.acked < |verdicts|
    ensures Inv(s0, verdicts, Handle(d, verdicts[d.acked], n).desk)
    ensures Ahead(s0, verdicts, d) ==> Handle(d, verdicts[d.acked], n).desk.published == d.published
  {
    hide Handle, ApplyVerdict, Moves, Once, InOrder, PublishedOk;
    var v := verdicts[d.acked];
    var d' := Handle(d, v, n).desk;
    var before := InOrder(s0, verdicts[..d.acked]);
    HandleState(d, v, n);
    InOrderNext(s0, verdicts, d.acked);
    if Ahead(s0, verdicts, d) {
      Refuses(before, v);
    }
    if d'.published == d.published {
      SameEvents(s0, verdicts, d, d');
    } else {
      OneMoreEvent(s0, verdicts, d, d', d'.published[|d.published|]);
    }
  }

  lemma {:induction false} Refuses(s: State, v: Verdict)
    requires Moves(s, v)
    ensures !Moves(Once(s, v), v) && Once(Once(s, v), v) == Once(s, v)
  {
    RedeliveryIsRefused(s, v, Commits);
  }

  lemma {:induction false} PollKeeps(s0: State, verdicts: seq<Verdict>, d: Desk, events: seq<Verdict>,
                                     fates: seq<Fates>)
    requires Inv(s0, verdicts, d)
    requires d.acked <= |verdicts| && events <= verdicts[d.acked..]
    ensures Inv(s0, verdicts, PollSpec(d, events, fates))
    decreases |events|
  {
    hide Inv, Handle;
    if events != [] && fates != [] {
      assert events[0] == verdicts[d.acked];
      HandleKeeps(s0, verdicts, d, fates[0]);
      HandleState(d, events[0], fates[0]);
      var h := Handle(d, events[0], fates[0]);
      if h.goOn {
        assert verdicts[h.desk.acked..] == verdicts[d.acked..][1..];
        PollKeeps(s0, verdicts, h.desk, events[1..], fates[1..]);
      }
    }
  }

  lemma {:induction false} LifeKeeps(s0: State, verdicts: seq<Verdict>, d: Desk, polls: seq<Poll>)
    requires Inv(s0, verdicts, d)
    ensures Inv(s0, verdicts, Life(d, verdicts, polls))
    decreases |polls|
  {
    hide Settled, Ahead, PublishedOk, PollSpec;
    if polls != [] {
      Within(s0, verdicts, d);
      var events := Batch(verdicts, d.acked, polls[0].count);
      assert events <= verdicts[d.acked..];
      PollKeeps(s0, verdicts, d, events, polls[0].fates);
      LifeKeeps(s0, verdicts, PollSpec(d, events, polls[0].fates), polls[1..]);
    }
  }

  lemma {:induction false} Within(s0: State, verdicts: seq<Verdict>, d: Desk)
    requires Inv(s0, verdicts, d)
    ensures d.acked <= |verdicts|
  {
  }

  /**
   Under any crashes, lost replies and redeliveries, with the Librarian the only writer: the registry holds what
   the acknowledged verdicts, each applied once and in stream order, leave (or that plus the one verdict in
   hand); once all are acknowledged, exactly the in-order result. Lifecycle events come out in verdict order, at
   most one per verdict, each telling the move its verdict made.
   */
  lemma {:induction false} Converges(s0: State, verdicts: seq<Verdict>, polls: seq<Poll>)
    ensures var d := Life(Desk(s0, [], 0), verdicts, polls);
            && d.acked <= |verdicts|
            && (d.state == InOrder(s0, verdicts[..d.acked])
                || (d.acked < |verdicts| && d.state == InOrder(s0, verdicts[..d.acked + 1])))
            && (d.acked == |verdicts| ==> d.state == InOrder(s0, verdicts))
            && (forall k :: 0 <= k < |d.published| ==> Announces(s0, verdicts, d.published[k]))
            && (forall j, k :: 0 <= j < k < |d.published| ==> d.published[j].verdict < d.published[k].verdict)
  {
    hide Life, InOrder, Announces, Moves, Once;
    var start := Desk(s0, [], 0);
    assert Inv(s0, verdicts, start) by { StartsSettled(s0, verdicts); }
    LifeKeeps(s0, verdicts, start, polls);
    var d := Life(start, verdicts, polls);
    if d.acked < |verdicts| {
      InOrderNext(s0, verdicts, d.acked);
    } else {
      assert verdicts[..d.acked] == verdicts;
    }
  }

  lemma {:induction false} StartsSettled(s0: State, verdicts: seq<Verdict>)
    ensures Inv(s0, verdicts, Desk(s0, [], 0))
  {
  }

  /** Faults that let every verdict through. */
  const Calm := Fates(Commits, Published, Acked)

  lemma {:induction false} CalmHandling(d: Desk, v: Verdict)
    ensures var h := Handle(d, v, Calm);
            && h.goOn && h.desk.acked == d.acked + 1 && h.desk.state == Once(d.state, v)
            && (Moves(d.state, v) <==> |h.desk.published| == |d.published| + 1)
  {
    hide Instructs, Allowed;
  }

  /** A poll that meets no fault acknowledges its whole batch, whatever an earlier crash left behind. */
  lemma {:induction false} CalmPollDrains(d: Desk, events: seq<Verdict>, fates: seq<Fates>)
    requires |events| <= |fates| && forall k :: 0 <= k < |fates| ==> fates[k] == Calm
    ensures PollSpec(d, events, fates).acked == d.acked + |events|
    decreases |events|
  {
    if events != [] {
      CalmHandling(d, events[0]);
      CalmPollDrains(Handle(d, events[0], Calm).desk, events[1..], fates[1..]);
    }
  }

  // ----- which moves are announced -----

  /** A lifecycle event answers the verdict at position `i`. */
  ghost predicate Announced(d: Desk, i: nat) {
    exists k :: 0 <= k < |d.published| && d.published[k].verdict == i
  }

  /** The verdict at position `i` moves its strategy when its turn comes. */
  ghost predicate MovesAt(s0: State, verdicts: seq<Verdict>, i: nat) {
    i < |verdicts| && Moves(InOrder(s0, verdicts[..i]), verdicts[i])
  }

  /** The move is not announced yet, and not yet applied. */
  ghost predicate StillOwed(s0: State, verdicts: seq<Verdict>, d: Desk, i: nat) {
    MovesAt(s0, verdicts, i) && (d.acked < i || (d.acked == i && !Ahead(s0, verdicts, d)))
  }

  ghost predicate Kept(s0: State, verdicts: seq<Verdict>, d: Desk, i: nat) {
    Announced(d, i) || StillOwed(s0, verdicts, d, i)
  }

  /** Every verdict that moves its strategy is announced or still can be. */
  ghost predicate AllKept(s0: State, verdicts: seq<Verdict>, d: Desk) {
    forall i: nat :: MovesAt(s0, verdicts, i) ==> Kept(s0, verdicts, d, i)
  }

  lemma {:induction false} SettledIsNotAhead(s0: State, verdicts: seq<Verdict>, d: Desk)
    requires Settled(s0, verdicts, d)
    ensures !Ahead(s0, verdicts, d)
  {
    hide Moves, Once, InOrder;
    var before := InOrder(s0, verdicts[..d.acked]);
    if d.acked < |verdicts| && Moves(before, verdicts[d.acked]) {
      RedeliveryIsRefused(before, verdicts[d.acked], Commits);
    }
  }

  /** A calm poll of one verdict settles it, and announces it if that moves its strategy. */
  lemma {:induction false} CalmStep(s0: State, verdicts: seq<Verdict>, d: Desk)
    requires Inv(s0, verdicts, d) && d.acked < |verdicts|
    ensures var d' := Handle(d, verdicts[d.acked], Calm).desk;
            && Life(d, verdicts, [Poll(1, [Calm])]) == d'
            && Inv(s0, verdicts, d') && Settled(s0, verdicts, d') && d'.acked == d.acked + 1
            && (MovesAt(s0, verdicts, d.acked) && !Ahead(s0, verdicts, d) ==> Announced(d', d.acked))
  {
    hide Moves, Once, InOrder, ApplyVerdict, Handle, PublishedOk;
    var v, before := verdicts[d.acked], InOrder(s0, verdicts[..d.acked]);
    HandleKeeps(s0, verdicts, d, Calm);
    HandleState(d, v, Calm);
    CalmHandling(d, v);
    InOrderNext(s0, verdicts, d.acked);
    if Ahead(s0, verdicts, d) {
      Refuses(before, v);
    }
    var d' := Handle(d, v, Calm).desk;
    assert Batch(verdicts, d.acked, 1) == [v];
    assert [v][1..] == [] && [Calm][1..] == [];
    assert PollSpec(d', [], []) == d';
    assert [Poll(1, [Calm])][1..] == [];
    assert Life(d', verdicts, []) == d';
    if Moves(d.state, v) {
      assert d'.published[|d.published|].verdict == d.acked;
    }
  }

  lemma {:induction false} LifeUnfolds(d: Desk, verdicts: seq<Verdict>, first: Poll, rest: seq<Poll>)
    ensures Life(d, verdicts, [first] + rest) == Life(Life(d, verdicts, [first]), verdicts, rest)
  {
    hide PollSpec;
    assert ([first] + rest)[1..] == rest && [first][1..] == [];
  }

  lemma {:induction false} PublishedStay(d: Desk, verdicts: seq<Verdict>, polls: seq<Poll>)
    ensures d.published <= Life(d, verdicts, polls).published
    decreases |polls|
  {
    hide PollSpec, Batch;
    if polls != [] {
      var events := Batch(verdicts, d.acked, polls[0].count);
      PollPublishes(d, events, polls[0].fates);
      PublishedStay(PollSpec(d, events, polls[0].fates), verdicts, polls[1..]);
    }
  }

  lemma {:induction false} PollPublishes(d: Desk, events: seq<Verdict>, fates: seq<Fates>)
    ensures d.published <= PollSpec(d, events, fates).published
    decreases |events|
  {
    hide Handle;
    if events != [] && fates != [] {
      HandleState(d, events[0], fates[0]);
      PollPublishes(Handle(d, events[0], fates[0]).desk, events[1..], fates[1..]);
    }
  }

  /** Calm polls up to a verdict that is still owed announce it. */
  lemma {:induction false} CalmAnnounces(s0: State, verdicts: seq<Verdict>, d: Desk, i: nat) returns (polls: seq<Poll>)
    requires Inv(s0, verdicts, d) && StillOwed(s0, verdicts, d, i)
    ensures Announced(Life(d, verdicts, polls), i)
    decreases i - d.acked
  {
    hide Inv, MovesAt, Ahead, Settled, Handle, Life, Batch;
    StillInStream(s0, verdicts, d, i);
    CalmStep(s0, verdicts, d);
    var d' := Handle(d, verdicts[d.acked], Calm).desk;
    if d.acked == i {
      polls := [Poll(1, [Calm])];
    } else {
      SettledIsNotAhead(s0, verdicts, d');
      var rest := CalmAnnounces(s0, verdicts, d', i);
      polls := [Poll(1, [Calm])] + rest;
      LifeUnfolds(d, verdicts, Poll(1, [Calm]), rest);
    }
  }

  lemma {:induction false} StillInStream(s0: State, verdicts: seq<Verdict>, d: Desk, i: nat)
    requires StillOwed(s0, verdicts, d, i)
    ensures d.acked <= i < |verdicts|
  {
  }

  /** Some continuation holds an event for the verdict at position `i`. */
  ghost predicate CanBeAnnounced(d: Desk, verdicts: seq<Verdict>, i: nat) {
    exists polls :: Announced(Life(d, verdicts, polls), i)
  }

  /**
   A verdict can be announced exactly when it already is, or it moves its strategy and has not been applied: one
   applied but not announced in the same handling is never announced, whatever follows.
   */
  lemma {:induction false} SilenceIsFinal(s0: State, verdicts: seq<Verdict>, d: Desk, i: nat)
    requires Inv(s0, verdicts, d)
    ensures CanBeAnnounced(d, verdicts, i) <==> Kept(s0, verdicts, d, i)
  {
    hide Life, Inv, StillOwed;
    if Announced(d, i) {
      NoPolls(d, verdicts);
      assert Announced(Life(d, verdicts, []), i);
    } else if StillOwed(s0, verdicts, d, i) {
      var polls := CalmAnnounces(s0, verdicts, d, i);
    } else {
      forall polls: seq<Poll> ensures !Announced(Life(d, verdicts, polls), i) {
        NeverAnnounced(s0, verdicts, d, polls, i);
      }
    }
  }

  lemma {:induction false} NoPolls(d: Desk, verdicts: seq<Verdict>)
    ensures Life(d, verdicts, []) == d
  {
  }

  lemma {:induction false} NeverAnnounced(s0: State, verdicts: seq<Verdict>, d: Desk, polls: seq<Poll>, i: nat)
    requires Inv(s0, verdicts, d) && !Kept(s0, verdicts, d, i)
    ensures !Announced(Life(d, verdicts, polls), i)
  {
    hide Life, Settled, InOrder, Moves;
    if MovesAt(s0, verdicts, i) {
      SilentLife(s0, verdicts, d, polls, i);
    } else {
      LifeKeeps(s0, verdicts, d, polls);
      var d' := Life(d, verdicts, polls);
      forall k | 0 <= k < |d'.published| ensures d'.published[k].verdict != i {
        assert Announces(s0, verdicts, d'.published[k]);
        AnnouncedMoves(s0, verdicts, d'.published[k]);
      }
    }
  }

  lemma {:induction false} AnnouncedMoves(s0: State, verdicts: seq<Verdict>, e: Lifecycle)
    requires Announces(s0, verdicts, e)
    ensures MovesAt(s0, verdicts, e.verdict)
  {
  }

  /** The verdict is applied in this handling, and its event is not published: no reply, no publish, or ValueError. */
  predicate LosesTheEvent(d: Desk, v: Verdict, n: Fates) {
    && Moves(d.state, v)
    && (n.db.CommitsReplyLost? || (n.db.Commits? && (n.publish.PublishFails? || n.publish.TooLarge?)))
  }

  /** What a handling publishes. */
  lemma {:induction false} HandlePublishes(d: Desk, v: Verdict, n: Fates)
    requires Moves(d.state, v)
    ensures var d' := Handle(d, v, n).desk;
            && (d'.published == d.published <==> n.db.DbFails? || LosesTheEvent(d, v, n))
            && (n.db.DbFails? ==> d' == d)
            && (!n.db.DbFails? ==> d'.state == Once(d.state, v))
  {
    hide Instructs, Allowed;
  }

  /** One handling keeps every move announced or owed exactly when it does not lose the event of its own verdict. */
  lemma {:induction false} HandleLosesExactly(s0: State, verdicts: seq<Verdict>, d: Desk, n: Fates)
    requires Inv(s0, verdicts, d) && d.acked < |verdicts|
    ensures AllKept(s0, verdicts, Handle(d, verdicts[d.acked], n).desk)
            <==> AllKept(s0, verdicts, d) && !LosesTheEvent(d, verdicts[d.acked], n)
  {
    hide Inv, Kept, MovesAt, LosesTheEvent, Handle;
    var d' := Handle(d, verdicts[d.acked], n).desk;
    forall i: nat | MovesAt(s0, verdicts, i)
      ensures Kept(s0, verdicts, d', i) <==>
                Kept(s0, verdicts, d, i) && !(i == d.acked && LosesTheEvent(d, verdicts[d.acked], n))
    {
      HandleKeepsOne(s0, verdicts, d, n, i);
    }
    if LosesTheEvent(d, verdicts[d.acked], n) {
      LosingMoves(s0, verdicts, d, n);
    }
  }

  lemma {:induction false} LosingMoves(s0: State, verdicts: seq<Verdict>, d: Desk, n: Fates)
    requires Inv(s0, verdicts, d) && d.acked < |verdicts| && LosesTheEvent(d, verdicts[d.acked], n)
    ensures MovesAt(s0, verdicts, d.acked) && Settled(s0, verdicts, d)
  {
    hide InOrder, Moves, Once;
    if Ahead(s0, verdicts, d) {
      Refuses(InOrder(s0, verdicts[..d.acked]), verdicts[d.acked]);
    }
  }

  lemma {:induction false} HandleKeepsOne(s0: State, verdicts: seq<Verdict>, d: Desk, n: Fates, i: nat)
    requires Inv(s0, verdicts, d) && d.acked < |verdicts| && MovesAt(s0, verdicts, i)
    ensures Kept(s0, verdicts, Handle(d, verdicts[d.acked], n).desk, i) <==>
              Kept(s0, verdicts, d, i) && !(i == d.acked && LosesTheEvent(d, verdicts[d.acked], n))
  {
    hide Handle, Moves, Once, ApplyVerdict, InOrder, LosesTheEvent;
    var v := verdicts[d.acked];
    var d' := Handle(d, v, n).desk;
    HandleState(d, v, n);
    HandleKeeps(s0, verdicts, d, n);
    if i == d.acked {
      if Settled(s0, verdicts, d) {
        SettledKeepsOwn(s0, verdicts, d, n);
      } else {
        AheadKeepsOwn(s0, verdicts, d, n);
      }
    } else {
      assert Announced(d', i) <==> Announced(d, i) by {
        assert forall k :: 0 <= k < |d.published| ==> d'.published[k] == d.published[k];
      }
      InOrderNext(s0, verdicts, d.acked);
      if d'.acked > d.acked {
        if Ahead(s0, verdicts, d) {
          Refuses(InOrder(s0, verdicts[..d.acked]), v);
        }
        SettledIsNotAhead(s0, verdicts, d');
      }
    }
  }

  lemma {:induction false} SettledKeepsOwn(s0: State, verdicts: seq<Verdict>, d: Desk, n: Fates)
    requires PublishedOk(s0, verdicts, d) && Settled(s0, verdicts, d) && MovesAt(s0, verdicts, d.acked)
    ensures Kept(s0, verdicts, d, d.acked)
    ensures Kept(s0, verdicts, Handle(d, verdicts[d.acked], n).desk, d.acked)
            <==> !LosesTheEvent(d, verdicts[d.acked], n)
  {
    hide Handle, Moves, Once, ApplyVerdict, InOrder;
    var v := verdicts[d.acked];
    var d' := Handle(d, v, n).desk;
    HandleState(d, v, n);
    HandlePublishes(d, v, n);
    SettledIsNotAhead(s0, verdicts, d);
    if d'.published != d.published {
      assert d'.published[|d.published|].verdict == d.acked;
    } else {
      assert !Announced(d', d.acked);
    }
  }

  lemma {:induction false} AheadKeepsOwn(s0: State, verdicts: seq<Verdict>, d: Desk, n: Fates)
    requires Inv(s0, verdicts, d) && Ahead(s0, verdicts, d)
    ensures var d' := Handle(d, verdicts[d.acked], n).desk;
            && (Kept(s0, verdicts, d', d.acked) <==> Kept(s0, verdicts, d, d.acked))
            && !LosesTheEvent(d, verdicts[d.acked], n)
  {
    hide Handle, Moves, Once, ApplyVerdict, InOrder;
    var v := verdicts[d.acked];
    HandleState(d, v, n);
    HandleKeeps(s0, verdicts, d, n);
    Refuses(InOrder(s0, verdicts[..d.acked]), v);
    var d' := Handle(d, v, n).desk;
    assert d'.published == d.published;
    assert d'.acked == d.acked ==> Ahead(s0, verdicts, d');
  }

  ghost predicate Silent(s0: State, verdicts: seq<Verdict>, d: Desk, i: nat) {
    && (i < d.acked || (i == d.acked && Ahead(s0, verdicts, d)))
    && forall k :: 0 <= k < |d.published| ==> d.published[k].verdict != i
  }

  lemma {:induction false} SilentHandle(s0: State, verdicts: seq<Verdict>, d: Desk, n: Fates, i: nat)
    requires Inv(s0, verdicts, d) && d.acked < |verdicts| && Silent(s0, verdicts, d, i)
    ensures Silent(s0, verdicts, Handle(d, verdicts[d.acked], n).desk, i)
  {
    hide Handle, Moves, Once, ApplyVerdict, InOrder;
    HandleState(d, verdicts[d.acked], n);
    HandleKeeps(s0, verdicts, d, n);
    if Ahead(s0, verdicts, d) {
      Refuses(InOrder(s0, verdicts[..d.acked]), verdicts[d.acked]);
    }
  }

  lemma {:induction false} SilentPoll(s0: State, verdicts: seq<Verdict>, d: Desk, events: seq<Verdict>,
                                      fates: seq<Fates>, i: nat)
    requires Inv(s0, verdicts, d) && Silent(s0, verdicts, d, i)
    requires d.acked <= |verdicts| && events <= verdicts[d.acked..]
    ensures Silent(s0, verdicts, PollSpec(d, events, fates), i)
    decreases |events|
  {
    hide Inv, Handle, Silent;
    if events != [] && fates != [] {
      assert events[0] == verdicts[d.acked];
      SilentHandle(s0, verdicts, d, fates[0], i);
      HandleKeeps(s0, verdicts, d, fates[0]);
      HandleState(d, events[0], fates[0]);
      var h := Handle(d, events[0], fates[0]);
      if h.goOn {
        assert verdicts[h.desk.acked..] == verdicts[d.acked..][1..];
        SilentPoll(s0, verdicts, h.desk, events[1..], fates[1..], i);
      }
    }
  }

  lemma {:induction false} SilentLife(s0: State, verdicts: seq<Verdict>, d: Desk, polls: seq<Poll>, i: nat)
    requires Inv(s0, verdicts, d) && Silent(s0, verdicts, d, i)
    ensures Silent(s0, verdicts, Life(d, verdicts, polls), i)
    decreases |polls|
  {
    hide Settled, Ahead, PublishedOk, PollSpec, Silent;
    if polls != [] {
      Within(s0, verdicts, d);
      var events := Batch(verdicts, d.acked, polls[0].count);
      assert events <= verdicts[d.acked..];
      PollKeeps(s0, verdicts, d, events, polls[0].fates);
      SilentPoll(s0, verdicts, d, events, polls[0].fates, i);
      SilentLife(s0, verdicts, PollSpec(d, events, polls[0].fates), polls[1..], i);
    }
  }

  /** Some handling of the poll loses the event of its verdict. */
  predicate PollLoses(d: Desk, events: seq<Verdict>, fates: seq<Fates>)
    decreases |events|
  {
    events != [] && fates != [] &&
    (LosesTheEvent(d, events[0], fates[0])
     || var h := Handle(d, events[0], fates[0]); h.goOn && PollLoses(h.desk, events[1..], fates[1..]))
  }

  predicate LifeLoses(d: Desk, verdicts: seq<Verdict>, polls: seq<Poll>)
    decreases |polls|
  {
    polls != [] &&
    var events := Batch(verdicts, d.acked, polls[0].count);
    PollLoses(d, events, polls[0].fates) || LifeLoses(PollSpec(d, events, polls[0].fates), verdicts, polls[1..])
  }

  lemma {:induction false} PollLosesExactly(s0: State, verdicts: seq<Verdict>, d: Desk, events: seq<Verdict>,
                                            fates: seq<Fates>)
    requires Inv(s0, verdicts, d) && d.acked <= |verdicts| && events <= verdicts[d.acked..]
    ensures AllKept(s0, verdicts, PollSpec(d, events, fates))
            <==> AllKept(s0, verdicts, d) && !PollLoses(d, events, fates)
    decreases |events|
  {
    hide Inv, Handle, AllKept, LosesTheEvent;
    if events != [] && fates != [] {
      assert events[0] == verdicts[d.acked];
      HandleLosesExactly(s0, verdicts, d, fates[0]);
      HandleKeeps(s0, verdicts, d, fates[0]);
      HandleState(d, events[0], fates[0]);
      var h := Handle(d, events[0], fates[0]);
      if h.goOn {
        assert verdicts[h.desk.acked..] == verdicts[d.acked..][1..];
        PollLosesExactly(s0, verdicts, h.desk, events[1..], fates[1..]);
      }
    }
  }

  lemma {:induction false} LifeLosesExactly(s0: State, verdicts: seq<Verdict>, d: Desk, polls: seq<Poll>)
    requires Inv(s0, verdicts, d)
    ensures AllKept(s0, verdicts, Life(d, verdicts, polls))
            <==> AllKept(s0, verdicts, d) && !LifeLoses(d, verdicts, polls)
    decreases |polls|
  {
    hide Settled, Ahead, PublishedOk, PollSpec, PollLoses, AllKept;
    if polls != [] {
      Within(s0, verdicts, d);
      var events := Batch(verdicts, d.acked, polls[0].count);
      assert events <= verdicts[d.acked..];
      PollKeeps(s0, verdicts, d, events, polls[0].fates);
      PollLosesExactly(s0, verdicts, d, events, polls[0].fates);
      LifeLosesExactly(s0, verdicts, PollSpec(d, events, polls[0].fates), polls[1..]);
    }
  }

  /**
   Over any life: every verdict that moves its strategy is announced or can still be, exactly when no handling commits
   a move and then loses its reply or its publish; and once all are acknowledged, every move has its one event exactly
   then.
   */
  lemma {:induction false} EveryMoveIsAnnounced(s0: State, verdicts: seq<Verdict>, polls: seq<Poll>)
    ensures var d := Life(Desk(s0, [], 0), verdicts, polls);
            && ((forall i: nat :: MovesAt(s0, verdicts, i) ==> CanBeAnnounced(d, verdicts, i))
                <==> !LifeLoses(Desk(s0, [], 0), verdicts, polls))
            && (d.acked == |verdicts| ==>
                  ((forall i: nat :: MovesAt(s0, verdicts, i) ==> Announced(d, i))
                   <==> !LifeLoses(Desk(s0, [], 0), verdicts, polls)))
  {
    hide Life, LifeLoses, MovesAt, CanBeAnnounced, Announced, PublishedOk;
    var start := Desk(s0, [], 0);
    StartsSettled(s0, verdicts);
    SettledIsNotAhead(s0, verdicts, start);
    LifeLosesExactly(s0, verdicts, start, polls);
    LifeKeeps(s0, verdicts, start, polls);
    var d := Life(start, verdicts, polls);
    forall i: nat ensures CanBeAnnounced(d, verdicts, i) <==> Kept(s0, verdicts, d, i) {
      SilenceIsFinal(s0, verdicts, d, i);
    }
    forall i: nat | d.acked == |verdicts| && StillOwed(s0, verdicts, d, i) ensures false {
      StillInStream(s0, verdicts, d, i);
    }
  }

  // ----- a move that is never announced -----

  const Proposed := State(map["s" := Row(Hypothesis, None, "s", None, "s", 1, "s", 0)], [Entry("s", None, Hypothesis)])

  const Promotion := Verdict(true, Text("s"), Text("promote"), Text("paper"), NoText)

  lemma {:induction false} PromotionMoves()
    ensures Moves(Proposed, Promotion)
  {
    hide Instructs;
    PromotionInstructs();
  }

  lemma {:induction false} PromotionInstructs()
    ensures Instructs(Promotion) == Move("s", Paper, None)
  {
    hide Strip, StatusNamed;
    StripsToItself("s");
    StripsToItself("promote");
    StripsToItself("paper");
    NamesPaper();
    assert "promote"[1] == 'r';
  }

  lemma {:induction false} NamesPaper()
    ensures StatusNamed("paper") == Paper
  {
    assert "paper" != "hypothesis" by { assert "paper"[0] != "hypothesis"[0]; }
  }

  /** A promotion whose commit lost its reply: applied by the first poll, announced by none. */
  lemma {:induction false} PromotionIsNeverAnnounced()
    ensures exists first: Poll ::
              var d := Life(Desk(Proposed, [], 0), [Promotion], [first]);
              && d.state == Once(Proposed, Promotion) != Proposed
              && forall polls :: !Announced(Life(d, [Promotion], polls), 0)
  {
    hide Once, Moves, Instructs, Life, Announced;
    PromotionMoves();
    LostReplyIsSilent(Proposed, Promotion);
  }

  /** Whatever the registry and the verdict. */
  lemma {:induction false} LostReplyIsSilent(s0: State, v: Verdict)
    requires Moves(s0, v)
    ensures var d := Life(Desk(s0, [], 0), [v], [Poll(1, [Fates(CommitsReplyLost, Published, Acked)])]);
            && d.state == Once(s0, v) != s0
            && forall polls :: !Announced(Life(d, [v], polls), 0)
  {
    hide Instructs, Announced;
    var start, n := Desk(s0, [], 0), Fates(CommitsReplyLost, Published, Acked);
    var first := Poll(1, [n]);
    RedeliveryIsRefused(s0, v, Commits);
    assert Batch([v], 0, 1) == [v] && [first][1..] == [];
    var d := Handle(start, v, n).desk;
    assert PollSpec(start, [v], [n]) == d;
    assert Life(start, [v], [first]) == Life(d, [v], []) == d;
    NotAnnouncedAgain(s0, v, d);
  }

  lemma {:induction false} NotAnnouncedAgain(s0: State, v: Verdict, d: Desk)
    requires Moves(s0, v) && d == Desk(Once(s0, v), [], 0)
    ensures forall polls :: !Announced(Life(d, [v], polls), 0)
  {
    hide Life, Once, Moves;
    assert [v][..0] == [] && InOrder(s0, []) == s0;
    assert Ahead(s0, [v], d);
    forall polls: seq<Poll> ensures !Announced(Life(d, [v], polls), 0) {
      NeverAnnounced(s0, [v], d, polls, 0);
    }
  }

  // ----- the service -----

  /** The consumer, its registry, and the streams it writes to. */
  class LibrarianService {
    const registry: StrategyRegistry
    var published: seq<Lifecycle>
    var acked: nat

    constructor (registry: StrategyRegistry)
      ensures this.registry == registry && published == [] && acked == 0
    {
      this.registry := registry;
      published, acked := [], 0;
    }

    ghost function Abs(): Desk
      reads this, registry
    {
      Desk(registry.Abs(), published, acked)
    }

    method ApplyVerdictEvent(v: Verdict, db: DbFate) returns (answer: Answer)
      modifies registry
      ensures Applied(registry.Abs(), answer) == ApplyVerdict(old(registry.Abs()), v, db)
    {
      hide Instructs, Transitioned;
      match Instructs(v) {
        case Malformed => return Skipped;
        case Hold => return NoChange;
        case Move(id, to, expected) =>
          if !to.Unlisted? && db.DbFails? {
            return Systemic;
          }
          var outcome := registry.Transition(id, to, expected);
          return if to.Unlisted? || db.Commits? then Replied(outcome) else Systemic;
      }
    }

    method AckEvent(fate: AckFate) returns (goOn: bool)
      modifies this`acked
      ensures Abs() == Ack(old(Abs()), fate, 0).desk && goOn == Ack(old(Abs()), fate, 0).goOn
    {
      if !fate.AckFails? {
        acked := acked + 1;
      }
      return fate.Acked?;
    }

    /** One event of the batch. */
    method HandleEvent(v: Verdict, n: Fates) returns (goOn: bool, applied: nat)
      modifies this, registry
      ensures Handled(Abs(), goOn, applied) == Handle(old(Abs()), v, n)
    {
      hide Instructs, ApplyVerdict, StreamFor;
      var answer := ApplyVerdictEvent(v, n.db);
      if answer.Systemic? {
        return false, 0;
      }
      if answer.Replied? && answer.outcome.Moved? && !n.publish.TooLarge? {
        if n.publish.PublishFails? {
          return false, 0;
        }
        published := published + [Lifecycle(acked, StreamFor(answer.outcome.to), IdOf(v), answer.outcome.from,
                                            answer.outcome.to)];
        if n.publish.PublishedReplyLost? {
          return false, 0;
        }
        goOn := AckEvent(n.ack);
        applied := if n.ack.Acked? then 1 else 0;
        return;
      }
      goOn := AckEvent(n.ack);
      applied := 0;
    }

    /** `poll_once` over the batch the group handed out. */
    method PollOnce(events: seq<Verdict>, fates: seq<Fates>) returns (applied: nat)
      modifies this, registry
      ensures Abs() == PollSpec(old(Abs()), events, fates)
      ensures applied == PollCount(old(Abs()), events, fates)
    {
      hide Handle, Abs;
      applied := 0;
      var i := 0;
      ghost var goal, total := PollSpec(Abs(), events, fates), PollCount(Abs(), events, fates);
      while i < |events| && i < |fates|
        invariant 0 <= i <= |events| && i <= |fates|
        invariant PollSpec(Abs(), events[i..], fates[i..]) == goal
        invariant applied + PollCount(Abs(), events[i..], fates[i..]) == total
      {
        assert events[i..][1..] == events[i + 1..] && fates[i..][1..] == fates[i + 1..];
        ghost var h := Handle(Abs(), events[i], fates[i]);
        var goOn, one := HandleEvent(events[i], fates[i]);
        assert h.desk == Abs() && h.goOn == goOn && h.applied == one;
        applied := applied + one;
        i := i + 1;
        if !goOn {
          return;
        }
      }
    }
  }
}
