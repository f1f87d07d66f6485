/**
 The order spine: one Execution Agent per broker account, every agent reading the whole stream of
 approved risk events through its own consumer group, each broker account deduplicating orders on
 `client_order_id`. Risk loop of src/shrap/trading_floor/execution_agent.py.

 `World` is Redis, the brokers and the agents' in-flight work. One `Step` is what happens between
 two awaits of one agent; agents interleave freely, any reply can be lost, any agent can crash.
 */
module OrderSpine {
  import opened Wrappers
  import DecimalText
  import opened PaperOrder

  type Account = string

  /** Why an agent acknowledged an event. */
  datatype Reason =
    | NotMine                        // another account's, or unroutable
    | Rejected(fractionable: bool)   // build_paper_order raised ValueError under this flag
    | Executed                       // order accepted and its submitted event published
    | AlreadyAtBroker                // the broker reported a duplicate client_order_id
    | AcceptedUnrecorded             // order accepted, then ValueError before the event was out

  /** Where an agent is with the first event of its batch. */
  datatype Stage = Ready | Built(order: Order, fractionable: bool) | AtBroker(order: Order) | Done(reason: Reason)

  /** One account's consumer group, and the volatile batch its agent holds. */
  datatype Agent = Agent(next: nat, pending: set<nat>, acked: map<nat, Reason>, batch: seq<nat>, stage: Stage)
  {
    function Idle(): Agent {
      this.(batch := [], stage := Ready)
    }
  }

  /** An order in a broker's book, with the stream position and flag it was built from. */
  datatype Placed = Placed(order: Order, position: nat, fractionable: bool)

  datatype Submitted = Submitted(riskId: string, account: Account, order: Order)

  datatype World = World(log: seq<RiskEvent>, agents: map<Account, Agent>,
                         books: map<Account, map<string, Placed>>, submitted: seq<Submitted>)

  /** How one awaited call ends for the caller. */
  datatype Reply =
    | Answered     // took effect, reply arrived
    | LostReply    // took effect, then raised
    | Refused      // no effect, raised
    | Malformed    // took effect, but the reply (or the event to publish) raised ValueError

  datatype Step =
    | Approve(event: RiskEvent)
    | Read(account: Account, count: nat)
    | Prepare(account: Account, answer: bool)
    | Submit(account: Account, reply: Reply)
    | Announce(account: Account, reply: Reply)
    | Ack(account: Account, reply: Reply)
    | Crash(account: Account)

  // ----- steps -----

  /** Pending positions in id order, at most `limit` of them. */
  function FirstPending(pending: set<nat>, from: nat, upto: nat, limit: nat): (batch: seq<nat>)
    ensures forall a :: 0 <= a < |batch| ==> from <= batch[a] < upto && batch[a] in pending
    ensures forall a, b :: 0 <= a < b < |batch| ==> batch[a] < batch[b]
    decreases upto - from
  {
    if from >= upto || limit == 0 then []
    else if from in pending then [from] + FirstPending(pending, from + 1, upto, limit - 1)
    else FirstPending(pending, from + 1, upto, limit)
  }

  function Positions(from: nat, upto: nat): (ids: set<nat>)
    ensures forall i :: i in ids <==> from <= i < upto
    decreases upto - from
  {
    if from >= upto then {} else {from} + Positions(from + 1, upto)
  }

  /** A group read: pending entries first, otherwise the next `count` new ones, which become pending. */
  function ReadBatch(agent: Agent, logged: nat, count: nat): Agent
    requires agent.next <= logged
  {
    if agent.pending != {} then
      agent.(batch := FirstPending(agent.pending, 0, agent.next, count))
    else
      var upto := if agent.next + count < logged then agent.next + count else logged;
      var handed := Positions(agent.next, upto);
      agent.(next := upto, pending := handed, batch := FirstPending(handed, agent.next, upto, count))
  }

  /** Routing, then `is_fractionable` (its answer is the step's choice) and `build_paper_order`. */
  function PrepareEvent(agent: Agent, event: RiskEvent, account: Account, answer: bool): Agent {
    if !RouteForAccount(event, account).Mine? then agent.(stage := Done(NotMine)) else
    var fractionable := AskedFlag(event, answer);
    match BuildPaperOrder(event, fractionable)
    case Ok(order) => agent.(stage := Built(order, fractionable))
    case Err(Invalid) => agent.(stage := Done(Rejected(fractionable)))
    case Err(Unexpected) => agent.Idle()
  }

  function SubmitOrder(w: World, a: Account, reply: Reply): World
    requires a in w.agents && a in w.books && w.agents[a].batch != [] && w.agents[a].stage.Built?
  {
    var agent, book := w.agents[a], w.books[a];
    var order := agent.stage.order;
    if order.clientOrderId in book then
      w.(agents := w.agents[a := if reply.Answered? then agent.(stage := Done(AlreadyAtBroker)) else agent.Idle()])
    else if reply.Refused? then
      w.(agents := w.agents[a := agent.Idle()])
    else
      var placed := Placed(order, agent.batch[0], agent.stage.fractionable);
      var after := match reply
        case Answered => agent.(stage := AtBroker(order))
        case Malformed => agent.(stage := Done(AcceptedUnrecorded))
        case _ => agent.Idle();
      w.(books := w.books[a := book[order.clientOrderId := placed]], agents := w.agents[a := after])
  }

  function AnnounceOrder(w: World, a: Account, reply: Reply): World
    requires a in w.agents && w.agents[a].stage.AtBroker?
  {
    var agent := w.agents[a];
    var event := Submitted(agent.stage.order.clientOrderId, a, agent.stage.order);
    match reply
    case Answered => w.(submitted := w.submitted + [event], agents := w.agents[a := agent.(stage := Done(Executed))])
    case LostReply => w.(submitted := w.submitted + [event], agents := w.agents[a := agent.Idle()])
    case Refused => w.(agents := w.agents[a := agent.Idle()])
    case Malformed => w.(agents := w.agents[a := agent.(stage := Done(AcceptedUnrecorded))])
  }

  function AckEvent(agent: Agent, reply: Reply): Agent
    requires agent.batch != [] && agent.stage.Done?
  {
    var i := agent.batch[0];
    var acked := agent.(pending := agent.pending - {i}, acked := agent.acked[i := agent.stage.reason]);
    match reply
    case Answered => acked.(batch := agent.batch[1..], stage := Ready)
    case LostReply => acked.Idle()
    case _ => agent.Idle()
  }

  predicate FreshId(w: World, id: string) {
    forall k :: 0 <= k < |w.log| ==> w.log[k].id != id
  }

  /** One step; a step that is not enabled changes nothing. */
  function Apply(w: World, step: Step): World {
    match step
    case Approve(event) => if FreshId(w, event.id) then w.(log := w.log + [event]) else w
    case Read(a, count) =>
      if a in w.agents && w.agents[a].batch == [] && w.agents[a].stage.Ready? && w.agents[a].next <= |w.log|
      then w.(agents := w.agents[a := ReadBatch(w.agents[a], |w.log|, count)]) else w
    case Prepare(a, answer) =>
      if a in w.agents && w.agents[a].batch != [] && w.agents[a].stage.Ready? && w.agents[a].batch[0] < |w.log|
      then w.(agents := w.agents[a := PrepareEvent(w.agents[a], w.log[w.agents[a].batch[0]], a, answer)]) else w
    case Submit(a, reply) =>
      if a in w.agents && a in w.books && w.agents[a].batch != [] && w.agents[a].stage.Built?
      then SubmitOrder(w, a, reply) else w
    case Announce(a, reply) =>
      if a in w.agents && w.agents[a].batch != [] && w.agents[a].stage.AtBroker? then AnnounceOrder(w, a, reply) else w
    case Ack(a, reply) =>
      if a in w.agents && w.agents[a].batch != [] && w.agents[a].stage.Done?
      then w.(agents := w.agents[a := AckEvent(w.agents[a], reply)]) else w
    case Crash(a) => if a in w.agents then w.(agents := w.agents[a := w.agents[a].Idle()]) else w
  }

  function Run(w: World, steps: seq<Step>): World
    decreases |steps|
  {
    if steps == [] then w else Run(Apply(w, steps[0]), steps[1..])
  }

  function Start(accounts: set<Account>): World {
    World([], map a | a in accounts :: Agent(0, {}, map[], [], Ready), map a | a in accounts :: map[], [])
  }

  // ----- the invariant -----

  ghost predicate DistinctIds(log: seq<RiskEvent>) {
    forall i, j :: 0 <= i < j < |log| ==> log[i].id != log[j].id
  }

  /** `i` is an event of `a`'s own, and its order is in `a`'s book. */
  ghost predicate Ordered(w: World, a: Account, i: nat) {
    && i < |w.log| && a in w.books && RouteForAccount(w.log[i], a).Mine?
    && w.log[i].id in w.books[a]
  }

  ghost predicate Announced(w: World, id: string) {
    exists k :: 0 <= k < |w.submitted| && w.submitted[k].riskId == id
  }

  /** A recorded reason is the truth about event `i` on account `a`. */
  ghost predicate Justified(w: World, a: Account, i: nat, reason: Reason) {
    && i < |w.log|
    && match reason
       case NotMine => !RouteForAccount(w.log[i], a).Mine?
       case Rejected(f) => RouteForAccount(w.log[i], a).Mine? && BuildPaperOrder(w.log[i], f) == Err(Invalid)
       case Executed => Ordered(w, a, i) && Announced(w, w.log[i].id)
       case _ => Ordered(w, a, i)
  }

  /** What an agent holds for the first event of its batch. */
  ghost predicate StageOk(w: World, a: Account, agent: Agent) {
    && (!agent.stage.Ready? ==> agent.batch != [])
    && (agent.batch != [] ==>
          var i := agent.batch[0];
          match agent.stage
          case Ready => true
          case Built(order, f) =>
            i < |w.log| && RouteForAccount(w.log[i], a).Mine? && BuildPaperOrder(w.log[i], f) == Ok(order)
          case AtBroker(order) =>
            Ordered(w, a, i) && order == w.books[a][w.log[i].id].order && !Announced(w, w.log[i].id)
          case Done(reason) => Justified(w, a, i, reason))
  }

  ghost predicate GroupOk(w: World, a: Account, agent: Agent) {
    && agent.next <= |w.log|
    && (forall i <- agent.pending :: i < agent.next && i !in agent.acked)
    && (forall i: nat :: i < agent.next ==> i in agent.pending || i in agent.acked)
    && (forall k :: 0 <= k < |agent.batch| ==> agent.batch[k] in agent.pending)
    && (forall j, k :: 0 <= j < k < |agent.batch| ==> agent.batch[j] < agent.batch[k])
    && (forall i <- agent.acked :: i < agent.next && Justified(w, a, i, agent.acked[i]))
  }

  /** An order in a book was built from an event of that account, and carries that event's id. */
  ghost predicate PlacedOk(w: World, a: Account, id: string, p: Placed) {
    && p.position < |w.log| && w.log[p.position].id == id
    && RouteForAccount(w.log[p.position], a).Mine?
    && BuildPaperOrder(w.log[p.position], p.fractionable) == Ok(p.order)
  }

  ghost predicate BooksOk(w: World) {
    forall a, id :: a in w.books && id in w.books[a] ==> PlacedOk(w, a, id, w.books[a][id])
  }

  ghost predicate SubmittedOk(w: World) {
    && (forall k :: 0 <= k < |w.submitted| ==>
          var s := w.submitted[k];
          s.account in w.books && s.riskId in w.books[s.account] && w.books[s.account][s.riskId].order == s.order)
    && (forall j, k :: 0 <= j < k < |w.submitted| ==> w.submitted[j].riskId != w.submitted[k].riskId)
  }

  ghost predicate AgentsOk(w: World) {
    forall a :: a in w.agents ==> a in w.books && GroupOk(w, a, w.agents[a]) && StageOk(w, a, w.agents[a])
  }

  ghost predicate Inv(w: World) {
    DistinctIds(w.log) && BooksOk(w) && SubmittedOk(w) && AgentsOk(w)
  }

  // ----- each step keeps it -----

  /** `w'` only adds to the log, the books and the submitted stream, and announces nothing in `a`'s hands. */
  ghost predicate Grows(w: World, w': World) {
    && |w.log| <= |w'.log| && w.log == w'.log[..|w.log|]
    && w'.books.Keys == w.books.Keys
    && (forall a, id :: a in w.books && id in w.books[a] ==> id in w'.books[a] && w'.books[a][id] == w.books[a][id])
    && |w.submitted| <= |w'.submitted| && w.submitted == w'.submitted[..|w.submitted|]
  }

  lemma {:induction false} JustifiedGrows(w: World, w': World, a: Account, i: nat, reason: Reason)
    requires Grows(w, w') && Justified(w, a, i, reason)
    ensures Justified(w', a, i, reason)
  {
    assert w'.log[i] == w.log[i];
    if reason.Executed? {
      var k :| 0 <= k < |w.submitted| && w.submitted[k].riskId == w.log[i].id;
      assert w'.submitted[k] == w.submitted[k];
    }
  }

  lemma {:induction false} GroupGrows(w: World, w': World, a: Account, agent: Agent)
    requires Grows(w, w') && GroupOk(w, a, agent)
    ensures GroupOk(w', a, agent)
  {
    forall i | i in agent.acked ensures Justified(w', a, i, agent.acked[i]) {
      JustifiedGrows(w, w', a, i, agent.acked[i]);
    }
  }

  /** Everything an agent holds survives growth, provided its own order was not announced meanwhile. */
  lemma {:induction false} StageGrows(w: World, w': World, a: Account, agent: Agent)
    requires Grows(w, w') && StageOk(w, a, agent)
    requires agent.batch != [] && agent.stage.AtBroker? ==> !Announced(w', w.log[agent.batch[0]].id)
    ensures StageOk(w', a, agent)
  {
    if agent.batch != [] {
      if agent.stage.Done? {
        JustifiedGrows(w, w', a, agent.batch[0], agent.stage.reason);
      } else if !agent.stage.Ready? {
        assert w'.log[agent.batch[0]] == w.log[agent.batch[0]];
      }
    }
  }

  lemma {:induction false} PlacedGrows(w: World, w': World, a: Account, id: string, p: Placed)
    requires Grows(w, w') && PlacedOk(w, a, id, p)
    ensures PlacedOk(w', a, id, p)
  {
    assert w'.log[p.position] == w.log[p.position];
  }

  lemma {:induction false} BooksGrow(w: World, w': World)
    requires Grows(w, w') && BooksOk(w) && w'.books == w.books
    ensures BooksOk(w')
  {
    hide PlacedOk, Grows;
    forall a, id | a in w'.books && id in w'.books[a] ensures PlacedOk(w', a, id, w'.books[a][id]) {
      PlacedGrows(w, w', a, id, w.books[a][id]);
    }
  }

  /** Agents other than those listed keep their state; none of them has its order announced by the step. */
  lemma {:induction false} OthersKeep(w: World, w': World, a: Account, agent: Agent)
    requires AgentsOk(w) && Grows(w, w') && a in w.agents && w'.agents == w.agents[a := agent]
    requires GroupOk(w', a, agent) && StageOk(w', a, agent)
    requires forall b :: b in w.agents && b != a ==> StageOk(w', b, w.agents[b])
    ensures AgentsOk(w')
  {
    hide GroupOk, StageOk;
    assert w'.books.Keys == w.books.Keys;
    forall b | b in w'.agents ensures b in w'.books && GroupOk(w', b, w'.agents[b]) && StageOk(w', b, w'.agents[b]) {
      if b != a {
        assert GroupOk(w, b, w.agents[b]);
        GroupGrows(w, w', b, w.agents[b]);
      }
    }
  }

  lemma {:induction false} StagesGrow(w: World, w': World)
    requires AgentsOk(w) && Grows(w, w') && w'.submitted == w.submitted
    ensures forall b :: b in w.agents ==> StageOk(w', b, w.agents[b])
  {
    hide GroupOk, Grows;
    forall b | b in w.agents ensures StageOk(w', b, w.agents[b]) {
      assert StageOk(w, b, w.agents[b]);
      StageGrows(w, w', b, w.agents[b]);
    }
  }

  lemma {:induction false} ApproveKeeps(w: World, event: RiskEvent)
    requires Inv(w) && FreshId(w, event.id)
    ensures Inv(w.(log := w.log + [event]))
  {
    hide PlacedOk, GroupOk, StageOk;
    var w' := w.(log := w.log + [event]);
    StagesGrow(w, w');
    BooksGrow(w, w');
    forall a | a in w.agents ensures GroupOk(w', a, w.agents[a]) {
      GroupGrows(w, w', a, w.agents[a]);
    }
  }

  /** A change to one agent's own state keeps the invariant when the new state is in order. */
  lemma {:induction false} AgentKeeps(w: World, a: Account, agent: Agent)
    requires Inv(w) && a in w.agents && GroupOk(w, a, agent) && StageOk(w, a, agent)
    ensures Inv(w.(agents := w.agents[a := agent]))
  {
    hide PlacedOk, GroupOk, StageOk;
    var w' := w.(agents := w.agents[a := agent]);
    StagesGrow(w, w');
    BooksGrow(w, w');
    GroupGrows(w, w', a, agent);
    StageSame(w, w', a, agent);
    OthersKeep(w, w', a, agent);
  }

  lemma {:induction false} StageSame(w: World, w': World, a: Account, agent: Agent)
    requires StageOk(w, a, agent) && w' == w.(agents := w'.agents)
    ensures StageOk(w', a, agent)
  {
    StageGrows(w, w', a, agent);
  }

  lemma {:induction false} ReadKeeps(w: World, a: Account, count: nat)
    requires Inv(w) && a in w.agents && w.agents[a].batch == [] && w.agents[a].stage.Ready?
    ensures Inv(Apply(w, Read(a, count)))
  {
    hide Inv, ReadBatch;
    var agent := w.agents[a];
    HeadOk(w, a);
    ReadGroup(w, a, agent, count);
    AgentKeeps(w, a, ReadBatch(agent, |w.log|, count));
  }

  lemma {:induction false} ReadGroup(w: World, a: Account, agent: Agent, count: nat)
    requires GroupOk(w, a, agent) && agent.batch == [] && agent.stage.Ready?
    ensures GroupOk(w, a, ReadBatch(agent, |w.log|, count)) && StageOk(w, a, ReadBatch(agent, |w.log|, count))
  {
    hide Justified;
  }

  lemma {:induction false} PrepareKeeps(w: World, a: Account, fractionable: bool)
    requires Inv(w) && a in w.agents
    ensures Inv(Apply(w, Prepare(a, fractionable)))
  {
    hide BuildPaperOrder, RouteForAccount, Inv;
    var agent := w.agents[a];
    if agent.batch != [] && agent.stage.Ready? && agent.batch[0] < |w.log| {
      HeadOk(w, a);
      var after := PrepareEvent(agent, w.log[agent.batch[0]], a, fractionable);
      RestageGroup(w, a, agent, after);
      AgentKeeps(w, a, after);
    }
  }

  /** Moving to another stage, or dropping the batch, leaves the group's books as they are. */
  lemma {:induction false} RestageGroup(w: World, a: Account, agent: Agent, after: Agent)
    requires GroupOk(w, a, agent)
    requires after == agent.(stage := after.stage) || after == agent.Idle()
    ensures GroupOk(w, a, after)
  {
    hide Justified;
  }

  /** Only the account an event names can have its order, so nobody else can have announced it. */
  lemma {:induction false} AnnouncedIsOrdered(w: World, a: Account, i: nat)
    requires BooksOk(w) && SubmittedOk(w) && DistinctIds(w.log)
    requires i < |w.log| && RouteForAccount(w.log[i], a).Mine? && a in w.books
    requires Announced(w, w.log[i].id)
    ensures w.log[i].id in w.books[a]
  {
    hide BuildPaperOrder, PlacedOk;
    var k :| 0 <= k < |w.submitted| && w.submitted[k].riskId == w.log[i].id;
    var s := w.submitted[k];
    PlacedOwner(w, s.account, s.riskId, w.books[s.account][s.riskId], i);
  }

  lemma {:induction false} PlacedOwner(w: World, a: Account, id: string, p: Placed, i: nat)
    requires PlacedOk(w, a, id, p) && DistinctIds(w.log) && i < |w.log| && w.log[i].id == id
    ensures p.position == i && NamedAccount(w.log[i]) == a
  {
    hide BuildPaperOrder, NamedAccount;
  }

  /** The broker accepts an order nobody has placed. */
  lemma {:induction false} BookingKeeps(w: World, a: Account, id: string, p: Placed, agent: Agent)
    requires Inv(w) && a in w.books && a in w.agents && id !in w.books[a] && PlacedOk(w, a, id, p)
    requires GroupOk(w, a, agent)
    requires StageOk(w.(books := w.books[a := w.books[a][id := p]]), a, agent)
    ensures Inv(w.(books := w.books[a := w.books[a][id := p]], agents := w.agents[a := agent]))
  {
    hide PlacedOk, GroupOk, StageOk;
    var booked := w.(books := w.books[a := w.books[a][id := p]]);
    assert Grows(w, booked);
    var w' := booked.(agents := w.agents[a := agent]);
    assert Grows(w, w');
    StagesGrow(w, w');
    GroupGrows(w, w', a, agent);
    StageSame(booked, w', a, agent);
    OthersKeep(w, w', a, agent);
    forall b, q | b in w'.books && q in w'.books[b] ensures PlacedOk(w', b, q, w'.books[b][q]) {
      PlacedGrows(w, w', b, q, w'.books[b][q]);
    }
  }

  lemma {:induction false} SubmitKeeps(w: World, a: Account, reply: Reply)
    requires Inv(w) && a in w.agents && w.agents[a].batch != [] && w.agents[a].stage.Built?
    ensures Inv(Apply(w, Submit(a, reply)))
  {
    hide BuildPaperOrder, BooksOk, SubmittedOk, Inv;
    var agent := w.agents[a];
    HeadOk(w, a);
    var i, order := agent.batch[0], agent.stage.order;
    var id := order.clientOrderId;
    var after := SubmitOrder(w, a, reply).agents[a];
    RestageGroup(w, a, agent, after);
    if id in w.books[a] || reply.Refused? {
      AgentKeeps(w, a, after);
    } else {
      var p := Placed(order, i, agent.stage.fractionable);
      NotYetAnnounced(w, a, i);
      BookingKeeps(w, a, id, p, after);
    }
  }

  lemma {:induction false} HeadOk(w: World, a: Account)
    requires Inv(w) && a in w.agents
    ensures a in w.books && GroupOk(w, a, w.agents[a]) && StageOk(w, a, w.agents[a])
  {
  }

  lemma {:induction false} NotYetAnnounced(w: World, a: Account, i: nat)
    requires Inv(w) && i < |w.log| && RouteForAccount(w.log[i], a).Mine? && a in w.books && w.log[i].id !in w.books[a]
    ensures !Announced(w, w.log[i].id)
  {
    if Announced(w, w.log[i].id) {
      AnnouncedIsOrdered(w, a, i);
    }
  }

  lemma {:induction false} AnnounceKeeps(w: World, a: Account, reply: Reply)
    requires Inv(w) && a in w.agents && w.agents[a].batch != [] && w.agents[a].stage.AtBroker?
    ensures Inv(Apply(w, Announce(a, reply)))
  {
    hide BuildPaperOrder, BooksOk, SubmittedOk, Inv;
    var agent := w.agents[a];
    HeadOk(w, a);
    var i, order := agent.batch[0], agent.stage.order;
    BookedId(w, a, i);
    var after := AnnounceOrder(w, a, reply).agents[a];
    RestageGroup(w, a, agent, after);
    if reply.Refused? || reply.Malformed? {
      AgentKeeps(w, a, after);
    } else {
      PublishKeeps(w, a, i, Submitted(order.clientOrderId, a, order), after);
    }
  }

  lemma {:induction false} BookedId(w: World, a: Account, i: nat)
    requires Inv(w) && Ordered(w, a, i)
    ensures w.books[a][w.log[i].id].order.clientOrderId == w.log[i].id
  {
    assert PlacedOk(w, a, w.log[i].id, w.books[a][w.log[i].id]);
  }

  lemma {:induction false} PublishKeeps(w: World, a: Account, i: nat, event: Submitted, after: Agent)
    requires Inv(w) && a in w.agents && Ordered(w, a, i) && !Announced(w, w.log[i].id)
    requires event == Submitted(w.log[i].id, a, w.books[a][w.log[i].id].order)
    requires GroupOk(w, a, after)
    requires (after.batch == [] && after.stage.Ready?)
             || (after.batch != [] && after.batch[0] == i && after.stage == Done(Executed))
    ensures Inv(w.(submitted := w.submitted + [event], agents := w.agents[a := after]))
  {
    hide PlacedOk, GroupOk, BooksOk, SubmittedOk;
    var w' := w.(submitted := w.submitted + [event], agents := w.agents[a := after]);
    assert w'.submitted[|w.submitted|].riskId == w.log[i].id;
    GroupGrows(w, w', a, after);
    forall b | b in w.agents && b != a ensures StageOk(w', b, w.agents[b]) {
      StageUnlessMine(w, w', a, i, b);
    }
    OthersKeep(w, w', a, after);
    BooksGrow(w, w');
    SubmittedOnce(w, w', event);
  }

  lemma {:induction false} SubmittedOnce(w: World, w': World, event: Submitted)
    requires SubmittedOk(w) && !Announced(w, event.riskId)
    requires w' == w.(submitted := w.submitted + [event], agents := w'.agents)
    requires event.account in w.books && event.riskId in w.books[event.account]
             && w.books[event.account][event.riskId].order == event.order
    ensures SubmittedOk(w')
  {
  }

  /** Announcing `a`'s order for event `i` cannot be about what another agent has in hand. */
  lemma {:induction false} StageUnlessMine(w: World, w': World, a: Account, i: nat, b: Account)
    requires Inv(w) && Grows(w, w') && Ordered(w, a, i) && b in w.agents && b != a
    requires |w'.submitted| == |w.submitted| + 1 && w'.submitted[|w.submitted|].riskId == w.log[i].id
    ensures StageOk(w', b, w.agents[b])
  {
    hide BuildPaperOrder, RouteForAccount, GroupOk, BooksOk, SubmittedOk;
    var other := w.agents[b];
    assert StageOk(w, b, other);
    if other.batch != [] && other.stage.AtBroker? {
      var j := other.batch[0];
      assert Ordered(w, b, j);
      OneOwner(w, a, i, b, j);
      StillUnannounced(w, w', w.log[j].id);
    }
    StageGrows(w, w', b, other);
  }

  lemma {:induction false} OneOwner(w: World, a: Account, i: nat, b: Account, j: nat)
    requires DistinctIds(w.log) && Ordered(w, a, i) && Ordered(w, b, j) && a != b
    ensures w.log[i].id != w.log[j].id
  {
  }

  lemma {:induction false} StillUnannounced(w: World, w': World, id: string)
    requires Grows(w, w') && |w'.submitted| == |w.submitted| + 1 && w'.submitted[|w.submitted|].riskId != id
    requires !Announced(w, id)
    ensures !Announced(w', id)
  {
    assert forall k :: 0 <= k < |w.submitted| ==> w'.submitted[k] == w.submitted[k];
  }

  lemma {:induction false} AckKeeps(w: World, a: Account, reply: Reply)
    requires Inv(w) && a in w.agents && w.agents[a].batch != [] && w.agents[a].stage.Done?
    ensures Inv(Apply(w, Ack(a, reply)))
  {
    hide BooksOk, SubmittedOk, Inv;
    HeadOk(w, a);
    AckedGroup(w, a, w.agents[a], reply);
    AgentKeeps(w, a, AckEvent(w.agents[a], reply));
  }

  lemma {:induction false} AckedGroup(w: World, a: Account, agent: Agent, reply: Reply)
    requires GroupOk(w, a, agent) && agent.batch != [] && agent.stage.Done?
    requires Justified(w, a, agent.batch[0], agent.stage.reason)
    ensures GroupOk(w, a, AckEvent(agent, reply))
  {
    hide Justified;
  }

  lemma {:induction false} StepKeeps(w: World, step: Step)
    requires Inv(w)
    ensures Inv(Apply(w, step))
  {
    match step
    case Approve(event) => if FreshId(w, event.id) { ApproveKeeps(w, event); }
    case Read(a, count) =>
      if a in w.agents && w.agents[a].batch == [] && w.agents[a].stage.Ready? {
        ReadKeeps(w, a, count);
      }
    case Prepare(a, f) => if a in w.agents { PrepareKeeps(w, a, f); }
    case Submit(a, reply) =>
      if a in w.agents && w.agents[a].batch != [] && w.agents[a].stage.Built? {
        SubmitKeeps(w, a, reply);
      }
    case Announce(a, reply) =>
      if a in w.agents && w.agents[a].batch != [] && w.agents[a].stage.AtBroker? {
        AnnounceKeeps(w, a, reply);
      }
    case Ack(a, reply) =>
      if a in w.agents && w.agents[a].batch != [] && w.agents[a].stage.Done? {
        AckKeeps(w, a, reply);
      }
    case Crash(a) =>
      if a in w.agents {
        assert GroupOk(w, a, w.agents[a]);
        AgentKeeps(w, a, w.agents[a].Idle());
      }
  }

  lemma {:induction false} RunKeeps(w: World, steps: seq<Step>)
    requires Inv(w)
    ensures Inv(Run(w, steps))
    decreases |steps|
  {
    if steps != [] {
      StepKeeps(w, steps[0]);
      RunKeeps(Apply(w, steps[0]), steps[1..]);
    }
  }

  ghost predicate Reachable(accounts: set<Account>, w: World) {
    exists steps :: w == Run(Start(accounts), steps)
  }

  lemma {:induction false} ReachableInv(accounts: set<Account>, w: World)
    requires Reachable(accounts, w)
    ensures Inv(w)
  {
    hide Inv, Apply;
    StartInv(accounts);
    var steps :| w == Run(Start(accounts), steps);
    RunKeeps(Start(accounts), steps);
  }

  lemma {:induction false} StartInv(accounts: set<Account>)
    ensures Inv(Start(accounts))
  {
  }

  // ----- what that means -----

  /**
   However the agents interleave, crash, lose replies and see redeliveries, one risk event has at most
   one order over all accounts, in the book of the account its intent names, for a quantity that never
   exceeds the approved one; and it has at most one submitted event, which is about that order.
   */
  lemma {:induction false} AtMostOneOrder(accounts: set<Account>, w: World)
    requires Reachable(accounts, w)
    ensures forall a, b, id :: a in w.books && b in w.books && id in w.books[a] && id in w.books[b] ==> a == b
    ensures forall a, id :: a in w.books && id in w.books[a] ==>
              exists i :: 0 <= i < |w.log| && w.log[i].id == id && NamedAccount(w.log[i]) == a
    ensures forall j, k :: 0 <= j < k < |w.submitted| ==> w.submitted[j].riskId != w.submitted[k].riskId
    ensures forall k :: 0 <= k < |w.submitted| ==>
              var s := w.submitted[k];
              s.account in w.books && s.riskId in w.books[s.account] && w.books[s.account][s.riskId].order == s.order
  {
    hide BuildPaperOrder, PlacedOk;
    ReachableInv(accounts, w);
    forall a, id | a in w.books && id in w.books[a]
      ensures exists i :: 0 <= i < |w.log| && w.log[i].id == id && NamedAccount(w.log[i]) == a
    {
      PlacedAt(w, a, id, w.books[a][id]);
    }
    forall a, b, id | a in w.books && b in w.books && id in w.books[a] && id in w.books[b] ensures a == b {
      PlacedAt(w, a, id, w.books[a][id]);
      PlacedOwner(w, b, id, w.books[b][id], w.books[a][id].position);
    }
  }

  lemma {:induction false} PlacedAt(w: World, a: Account, id: string, p: Placed)
    requires PlacedOk(w, a, id, p)
    ensures p.position < |w.log| && w.log[p.position].id == id && NamedAccount(w.log[p.position]) == a
  {
    hide BuildPaperOrder, NamedAccount;
  }

  /**
   An event its own account's agent acknowledged has its order at the broker, or was rejected by
   `build_paper_order` under the fractionable flag that attempt saw.
   */
  lemma {:induction false} AckedMeansOrderedOrRejected(accounts: set<Account>, w: World, a: Account, i: nat)
    requires Reachable(accounts, w)
    requires a in w.agents && i in w.agents[a].acked && i < |w.log| && NamedAccount(w.log[i]) == a && a != ""
    ensures a in w.books
    ensures w.log[i].id in w.books[a]
            || exists f :: BuildPaperOrder(w.log[i], f) == Err(Invalid) && w.agents[a].acked[i] == Rejected(f)
  {
    ReachableInv(accounts, w);
    assert GroupOk(w, a, w.agents[a]);
    assert Justified(w, a, i, w.agents[a].acked[i]);
  }

  /** Every order in every book is for no more than its risk event approved. */
  lemma {:induction false} OrdersWithinApproval(accounts: set<Account>, w: World, a: Account, id: string)
    returns (event: RiskEvent, nanos: nat)
    requires Reachable(accounts, w) && a in w.books && id in w.books[a]
    ensures event in w.log && event.id == id
    ensures var p := w.books[a][id];
            && BuildPaperOrder(event, p.fractionable) == Ok(p.order)
            && WithinApproval(Asked(event), p.fractionable, p.order.qty, nanos)
  {
    ReachableInv(accounts, w);
    var p := w.books[a][id];
    assert PlacedOk(w, a, id, p);
    event := w.log[p.position];
    nanos := OrderWithinApproval(event, p.fractionable);
  }

  // ----- one agent's own code -----

  /** The answers one event meets on its way through `poll_once`. */
  datatype Answers = Answers(fractionable: bool, submit: Reply, announce: Reply, ack: Reply)

  /** The steps of the batch loop; those not enabled (another account's event, an abandoned batch) do nothing. */
  function BatchSteps(a: Account, answers: seq<Answers>): seq<Step>
    decreases |answers|
  {
    if answers == [] then [Crash(a)]
    else
      var n := answers[0];
      [Prepare(a, n.fractionable), Submit(a, n.submit), Announce(a, n.announce), Ack(a, n.ack)]
      + BatchSteps(a, answers[1..])
  }

  /** One cycle of one agent as protocol steps; it stops early when `answers` run out, which is a crash. */
  function PollSteps(a: Account, count: nat, answers: seq<Answers>): seq<Step> {
    [Read(a, count)] + BatchSteps(a, answers)
  }

  /** How a call looks to the code that awaits it. */
  datatype Call = Returned | RaisedValueError | RaisedDuplicate | RaisedOther

  /** Redis and the brokers, shared by every agent. */
  class Bus {
    var world: World

    constructor (accounts: set<Account>)
      ensures world == Start(accounts)
    {
      world := Start(accounts);
    }

    method Perform(step: Step)
      modifies this
      ensures world == Apply(old(world), step)
    {
      world := Apply(world, step);
    }

    /** `broker.submit_order`: a known client_order_id is refused as a duplicate. */
    method SubmitToBroker(a: Account, reply: Reply) returns (call: Call)
      requires a in world.agents && a in world.books && world.agents[a].batch != [] && world.agents[a].stage.Built?
      modifies this
      ensures world == Apply(old(world), Submit(a, reply))
      ensures call.Returned? <==> world.agents[a].stage.AtBroker?
      ensures call.RaisedDuplicate? <==> world.agents[a].stage == Done(AlreadyAtBroker)
      ensures call.RaisedValueError? <==> world.agents[a].stage == Done(AcceptedUnrecorded)
      ensures call.RaisedOther? <==> world.agents[a] == old(world.agents[a]).Idle()
    {
      var known := world.agents[a].stage.order.clientOrderId in world.books[a];
      Perform(Submit(a, reply));
      if known {
        call := if reply.Answered? then RaisedDuplicate else RaisedOther;
      } else {
        call := match reply case Answered => Returned case Malformed => RaisedValueError case _ => RaisedOther;
      }
    }

    /** `EventPublisher.publish`: building the envelope can raise ValueError before anything is sent. */
    method Publish(a: Account, reply: Reply) returns (call: Call)
      requires a in world.agents && world.agents[a].batch != [] && world.agents[a].stage.AtBroker?
      modifies this
      ensures world == Apply(old(world), Announce(a, reply))
      ensures call.Returned? <==> reply.Answered?
      ensures call.RaisedValueError? <==> reply.Malformed?
      ensures call.RaisedOther? <==> reply.LostReply? || reply.Refused?
    {
      Perform(Announce(a, reply));
      call := match reply case Answered => Returned case Malformed => RaisedValueError case _ => RaisedOther;
    }
  }

  lemma {:induction false} NothingInHand(w: World, a: Account, answers: seq<Answers>)
    requires a in w.agents && w.agents[a].batch == [] && w.agents[a].stage.Ready?
    ensures Run(w, BatchSteps(a, answers)) == w
    decreases |answers|
  {
    assert w.agents[a := w.agents[a].Idle()] == w.agents;
    if answers == [] {
      assert Run(w, [Crash(a)]) == Run(Apply(w, Crash(a)), []);
    } else {
      var n := answers[0];
      FourSteps(w, Prepare(a, n.fractionable), Submit(a, n.submit), Announce(a, n.announce), Ack(a, n.ack),
                BatchSteps(a, answers[1..]));
      NothingInHand(w, a, answers[1..]);
    }
  }

  lemma {:induction false} FourSteps(w: World, s0: Step, s1: Step, s2: Step, s3: Step, rest: seq<Step>)
    ensures Run(w, [s0, s1, s2, s3] + rest) == Run(Apply(Apply(Apply(Apply(w, s0), s1), s2), s3), rest)
  {
    hide Apply;
    assert [s0, s1, s2, s3] + rest == [s0] + ([s1] + ([s2] + ([s3] + rest)));
    FirstStep(w, s0, [s1] + ([s2] + ([s3] + rest)));
    FirstStep(Apply(w, s0), s1, [s2] + ([s3] + rest));
    FirstStep(Apply(Apply(w, s0), s1), s2, [s3] + rest);
    FirstStep(Apply(Apply(Apply(w, s0), s1), s2), s3, rest);
  }

  lemma {:induction false} FirstStep(w: World, s: Step, rest: seq<Step>)
    ensures Run(w, [s] + rest) == Run(Apply(w, s), rest)
  {
    assert ([s] + rest)[1..] == rest;
  }

  /** Once an event is settled, only its acknowledgement is left. */
  lemma {:induction false} DoneSkips(w: World, a: Account, submit: Reply, announce: Reply)
    requires a in w.agents && w.agents[a].stage.Done?
    ensures Apply(w, Submit(a, submit)) == w && Apply(w, Announce(a, announce)) == w
  {
  }

  lemma {:induction false} PrepareEffect(w: World, a: Account, answer: bool)
    requires a in w.agents && a in w.books && w.agents[a].batch != [] && w.agents[a].stage.Ready?
    requires w.agents[a].batch[0] < |w.log|
    ensures var w' := Apply(w, Prepare(a, answer));
            && w' == w.(agents := w'.agents) && w'.agents.Keys == w.agents.Keys
            && w'.agents[a] == PrepareEvent(w.agents[a], w.log[w.agents[a].batch[0]], a, answer)
  {
  }

  lemma {:induction false} SubmitEffect(w: World, a: Account, reply: Reply)
    requires a in w.agents && a in w.books && w.agents[a].batch != [] && w.agents[a].stage.Built?
    ensures var w' := Apply(w, Submit(a, reply));
            && w'.agents.Keys == w.agents.Keys && w'.books.Keys == w.books.Keys && w'.submitted == w.submitted
            && (w'.agents[a] == w.agents[a].(stage := w'.agents[a].stage) || w'.agents[a] == w.agents[a].Idle())
  {
  }

  lemma {:induction false} AnnounceEffect(w: World, a: Account, reply: Reply)
    requires a in w.agents && a in w.books && w.agents[a].batch != [] && w.agents[a].stage.AtBroker?
    ensures var w' := Apply(w, Announce(a, reply));
            && w'.agents.Keys == w.agents.Keys && w'.books == w.books
            && |w'.submitted| >= |w.submitted| + (if reply.Answered? then 1 else 0)
            && w'.agents[a] == match reply
                 case Answered => w.agents[a].(stage := Done(Executed))
                 case Malformed => w.agents[a].(stage := Done(AcceptedUnrecorded))
                 case _ => w.agents[a].Idle()
  {
  }

  lemma {:induction false} AckEffect(w: World, a: Account, reply: Reply)
    requires a in w.agents && a in w.books && w.agents[a].batch != [] && w.agents[a].stage.Done?
    ensures var w' := Apply(w, Ack(a, reply));
            && w' == w.(agents := w'.agents) && w'.agents.Keys == w.agents.Keys
            && w'.agents[a].stage.Ready?
            && w'.agents[a].batch == if reply.Answered? then w.agents[a].batch[1..] else []
  {
  }

  lemma {:induction false} CrashEffect(w: World, a: Account)
    requires a in w.agents
    ensures Apply(w, Crash(a)) == w.(agents := w.agents[a := w.agents[a].Idle()])
  {
  }

  lemma {:induction false} HeadInLog(w: World, a: Account)
    requires Inv(w) && a in w.agents && w.agents[a].batch != []
    ensures w.agents[a].batch[0] < |w.log|
  {
    assert GroupOk(w, a, w.agents[a]);
  }

  lemma {:induction false} ReadEffect(w: World, a: Account, count: nat)
    requires Inv(w) && a in w.agents && w.agents[a].batch == [] && w.agents[a].stage.Ready?
    ensures var w' := Apply(w, Read(a, count));
            w' == w.(agents := w'.agents) && w'.agents.Keys == w.agents.Keys && w'.agents[a].stage.Ready?
  {
    hide Inv;
    HeadOk(w, a);
  }

  /** The world before the acknowledgement of the batch's head. */
  function Settle(w: World, a: Account, n: Answers): World {
    Apply(Apply(Apply(w, Prepare(a, n.fractionable)), Submit(a, n.submit)), Announce(a, n.announce))
  }

  /** The head's order was placed and announced, and both replies and the acknowledgement's came back. */
  predicate Executes(w: World, a: Account, n: Answers) {
    a in Settle(w, a, n).agents && Settle(w, a, n).agents[a].stage == Done(Executed) && n.ack.Answered?
  }

  /** How many events of the batch in hand are executed before it is done or abandoned. */
  function Executions(w: World, a: Account, answers: seq<Answers>): nat
    decreases |answers|
  {
    if answers == [] || a !in w.agents || w.agents[a].batch == [] then 0
    else
      (if Executes(w, a, answers[0]) then 1 else 0)
      + Executions(Apply(Settle(w, a, answers[0]), Ack(a, answers[0].ack)), a, answers[1..])
  }

  // ----- what a calm cycle does -----

  /** An attempt at an own event that names a symbol builds its order under the venue's answer in that attempt. */
  lemma {:induction false} BuildsUnderTheAnswer(w: World, a: Account, answer: bool)
    requires a in w.agents && w.agents[a].batch != [] && w.agents[a].stage.Ready? && w.agents[a].batch[0] < |w.log|
    requires RouteForAccount(w.log[w.agents[a].batch[0]], a).Mine? && NamesSymbol(w.log[w.agents[a].batch[0]])
    ensures var event, agent := w.log[w.agents[a].batch[0]], Apply(w, Prepare(a, answer)).agents[a];
            match BuildPaperOrder(event, answer)
            case Ok(order) => agent.stage == Built(order, answer) && agent.batch == w.agents[a].batch
            case Err(Invalid) => agent.stage == Done(Rejected(answer)) && agent.batch == w.agents[a].batch
            case Err(Unexpected) => agent == w.agents[a].Idle()
  {
    hide BuildPaperOrder, RouteForAccount;
  }

  const Calm := Answers(true, Answered, Answered, Answered)

  /** Every reply arrives; the venue's own answer is free. */
  predicate IsCalm(n: Answers) {
    n == Calm.(fractionable := n.fractionable)
  }

  /** What acknowledging the event at `i` with every reply arriving leaves, the venue having answered `answer`. */
  ghost predicate Settled(w: World, w': World, a: Account, i: nat, answer: bool)
    requires i < |w.log| && a in w.books
  {
    && a in w'.agents && a in w'.books && i in w'.agents[a].acked
    && var event, reason := w.log[i], w'.agents[a].acked[i];
       if !RouteForAccount(event, a).Mine? then reason == NotMine
       else if !NamesSymbol(event) then reason.Rejected?
       else
         match BuildPaperOrder(event, answer)
         case Err(_) => reason == Rejected(answer)
         case Ok(order) =>
           if event.id in w.books[a] then reason == AlreadyAtBroker && event.id in w'.books[a]
           else reason == Executed && event.id in w'.books[a]
                && w'.books[a][event.id] == Placed(order, i, answer)
                && Submitted(event.id, a, order) in w'.submitted
  }

  /** Nothing is taken back: the log stays, books, submitted events and acknowledgements only grow. */
  ghost predicate Advances(w: World, w': World, a: Account) {
    && w'.log == w.log && w'.books.Keys == w.books.Keys && w'.agents.Keys == w.agents.Keys
    && a in w.agents && a in w.books
    && (forall id :: id in w.books[a] ==> id in w'.books[a] && w'.books[a][id] == w.books[a][id])
    && (forall s :: s in w.submitted ==> s in w'.submitted)
    && w'.agents[a].pending <= w.agents[a].pending
    && (forall i :: i in w.agents[a].acked && i !in w.agents[a].pending ==>
          i in w'.agents[a].acked && w'.agents[a].acked[i] == w.agents[a].acked[i])
  }

  /** Acknowledging a settled head, the reply arriving. */
  lemma {:induction false} CalmAck(w: World, a: Account)
    requires a in w.agents && w.agents[a].batch != [] && w.agents[a].stage.Done?
    ensures var agent := w.agents[a];
            var i := agent.batch[0];
            Apply(w, Ack(a, Answered))
            == w.(agents := w.agents[a := Agent(agent.next, agent.pending - {i}, agent.acked[i := agent.stage.reason],
                                                agent.batch[1..], Ready)])
  {
  }

  /** A head refused or not this account's own. */
  lemma {:induction false} CalmSkip(w: World, a: Account, n: Answers)
    requires a in w.agents && a in w.books && IsCalm(n) && Apply(w, Prepare(a, n.fractionable)).agents[a].stage.Done?
    requires w.agents[a].batch != [] && w.agents[a].stage.Ready? && w.agents[a].batch[0] < |w.log|
    ensures Settle(w, a, n) == Apply(w, Prepare(a, n.fractionable))
    ensures var agent := Settle(w, a, n).agents[a];
            agent == w.agents[a].(stage := agent.stage) && Settle(w, a, n) == w.(agents := w.agents[a := agent])
  {
    hide BuildPaperOrder, RouteForAccount, NamesSymbol;
    DoneSkips(Apply(w, Prepare(a, n.fractionable)), a, n.submit, n.announce);
  }

  /** A head whose order was built: booked and announced, unless the broker knows it already. */
  lemma {:induction false} CalmOrder(w: World, a: Account, n: Answers, order: Order, f: bool)
    requires a in w.agents && a in w.books && IsCalm(n) && w.agents[a].batch != [] && w.agents[a].stage.Ready?
    requires w.agents[a].batch[0] < |w.log|
    requires Apply(w, Prepare(a, n.fractionable)) == w.(agents := w.agents[a := w.agents[a].(stage := Built(order, f))])
    ensures var w3, i := Settle(w, a, n), w.agents[a].batch[0];
            if order.clientOrderId in w.books[a]
            then w3 == w.(agents := w.agents[a := w.agents[a].(stage := Done(AlreadyAtBroker))])
            else w3 == w.(agents := w.agents[a := w.agents[a].(stage := Done(Executed))],
                          books := w.books[a := w.books[a][order.clientOrderId := Placed(order, i, f)]],
                          submitted := w.submitted + [Submitted(order.clientOrderId, a, order)])
  {
    hide PrepareEvent;
    var w1 := Apply(w, Prepare(a, n.fractionable));
    var w2 := Apply(w1, Submit(a, Answered));
    if order.clientOrderId in w.books[a] {
      DoneSkips(w2, a, n.submit, n.announce);
      assert w2.agents == w.agents[a := w.agents[a].(stage := Done(AlreadyAtBroker))];
    } else {
      var w3 := Apply(w2, Announce(a, Answered));
      assert w3.agents == w.agents[a := w.agents[a].(stage := Done(Executed))];
    }
  }

  /** The agent, done with the head of its batch for this reason. */
  function Past(agent: Agent, reason: Reason): Agent
    requires agent.batch != []
  {
    Agent(agent.next, agent.pending - {agent.batch[0]}, agent.acked[agent.batch[0] := reason], agent.batch[1..], Ready)
  }

  /** What handling the head leaves, beside its record: nothing new, or its order. */
  ghost predicate MovedPast(w: World, w': World, a: Account, reason: Reason)
    requires a in w.agents && a in w.books && w.agents[a].batch != [] && w.agents[a].batch[0] < |w.log|
  {
    var i := w.agents[a].batch[0];
    && w'.log == w.log && w'.agents == w.agents[a := Past(w.agents[a], reason)]
    && if reason == Executed
       then exists order: Order, f: bool :: order.clientOrderId == w.log[i].id && w.log[i].id !in w.books[a]
              && w'.books == w.books[a := w.books[a][order.clientOrderId := Placed(order, i, f)]]
              && w'.submitted == w.submitted + [Submitted(order.clientOrderId, a, order)]
       else w'.books == w.books && w'.submitted == w.submitted
  }

  lemma {:induction false} MovedPastAdvances(w: World, w': World, a: Account, reason: Reason)
    requires a in w.agents && a in w.books && w.agents[a].batch != [] && w.agents[a].batch[0] < |w.log|
    requires w.agents[a].batch[0] in w.agents[a].pending && MovedPast(w, w', a, reason)
    ensures Advances(w, w', a)
    ensures forall id :: id in w'.books[a] ==> id in w.books[a] || id == w.log[w.agents[a].batch[0]].id
  {
    assert w'.agents.Keys == w.agents.Keys && w'.books.Keys == w.books.Keys;
  }

  /** The head of the batch, handled with every reply arriving. */
  lemma {:induction false} CalmEvent(w: World, a: Account, n: Answers) returns (reason: Reason)
    requires a in w.agents && a in w.books && w.agents[a].batch != [] && w.agents[a].stage.Ready?
    requires w.agents[a].batch[0] < |w.log| && IsCalm(n) && w.agents[a].batch[0] in w.agents[a].pending
    requires RouteForAccount(w.log[w.agents[a].batch[0]], a).Mine? ==>
               BuildPaperOrder(w.log[w.agents[a].batch[0]], n.fractionable) != Err(Unexpected)
    ensures var w' := Apply(Settle(w, a, n), Ack(a, n.ack));
            && MovedPast(w, w', a, reason) && Settled(w, w', a, w.agents[a].batch[0], n.fractionable)
  {
    var event := w.log[w.agents[a].batch[0]];
    if !RouteForAccount(event, a).Mine? || !NamesSymbol(event) {
      reason := CalmStranger(w, a, n);
    } else {
      reason := CalmOwn(w, a, n);
    }
  }

  lemma {:induction false} CalmStranger(w: World, a: Account, n: Answers) returns (reason: Reason)
    requires a in w.agents && a in w.books && w.agents[a].batch != [] && w.agents[a].stage.Ready?
    requires w.agents[a].batch[0] < |w.log| && IsCalm(n)
    requires var event := w.log[w.agents[a].batch[0]]; !RouteForAccount(event, a).Mine? || !NamesSymbol(event)
    ensures var w' := Apply(Settle(w, a, n), Ack(a, n.ack));
            && MovedPast(w, w', a, reason) && Settled(w, w', a, w.agents[a].batch[0], n.fractionable)
  {
    hide NamesSymbol, BuildPaperOrder, RouteForAccount, Apply, Settle;
    var event := w.log[w.agents[a].batch[0]];
    PrepareEffect(w, a, n.fractionable);
    if !NamesSymbol(event) {
      UnnamedIsInvalid(event, AskedFlag(event, n.fractionable));
    }
    CalmSkip(w, a, n);
    CalmAck(Settle(w, a, n), a);
    reason := Settle(w, a, n).agents[a].stage.reason;
  }

  lemma {:induction false} CalmOwn(w: World, a: Account, n: Answers) returns (reason: Reason)
    requires a in w.agents && a in w.books && w.agents[a].batch != [] && w.agents[a].stage.Ready?
    requires w.agents[a].batch[0] < |w.log| && IsCalm(n)
    requires var event := w.log[w.agents[a].batch[0]];
             && RouteForAccount(event, a).Mine? && NamesSymbol(event)
             && BuildPaperOrder(event, n.fractionable) != Err(Unexpected)
    ensures var w' := Apply(Settle(w, a, n), Ack(a, n.ack));
            && MovedPast(w, w', a, reason) && Settled(w, w', a, w.agents[a].batch[0], n.fractionable)
  {
    hide NamesSymbol, BuildPaperOrder, RouteForAccount, Apply, Settle, PrepareEvent, MovedPast, Settled;
    var event := w.log[w.agents[a].batch[0]];
    BuildsUnderTheAnswer(w, a, n.fractionable);
    if BuildPaperOrder(event, n.fractionable).Ok? {
      PreparedIsBuilt(w, a, n.fractionable);
      reason := CalmOwnOrder(w, a, n, BuildPaperOrder(event, n.fractionable).value);
    } else {
      reason := CalmOwnRefusal(w, a, n);
    }
  }

  lemma {:induction false} CalmOwnRefusal(w: World, a: Account, n: Answers) returns (reason: Reason)
    requires a in w.agents && a in w.books && w.agents[a].batch != [] && w.agents[a].stage.Ready?
    requires w.agents[a].batch[0] < |w.log| && IsCalm(n)
    requires var event := w.log[w.agents[a].batch[0]];
             RouteForAccount(event, a).Mine? && NamesSymbol(event)
             && BuildPaperOrder(event, n.fractionable) == Err(Invalid)
    ensures var w' := Apply(Settle(w, a, n), Ack(a, n.ack));
            && MovedPast(w, w', a, reason) && Settled(w, w', a, w.agents[a].batch[0], n.fractionable)
  {
    hide NamesSymbol, BuildPaperOrder, RouteForAccount, Apply, Settle, PrepareEvent;
    BuildsUnderTheAnswer(w, a, n.fractionable);
    CalmSkip(w, a, n);
    CalmAck(Settle(w, a, n), a);
    reason := Rejected(n.fractionable);
  }

  lemma {:induction false} CalmOwnOrder(w: World, a: Account, n: Answers, order: Order) returns (reason: Reason)
    requires a in w.agents && a in w.books && w.agents[a].batch != [] && w.agents[a].stage.Ready?
    requires w.agents[a].batch[0] < |w.log| && IsCalm(n)
    requires Apply(w, Prepare(a, n.fractionable))
             == w.(agents := w.agents[a := w.agents[a].(stage := Built(order, n.fractionable))])
    requires var event := w.log[w.agents[a].batch[0]];
             RouteForAccount(event, a).Mine? && NamesSymbol(event)
             && BuildPaperOrder(event, n.fractionable) == Ok(order)
    ensures var w' := Apply(Settle(w, a, n), Ack(a, n.ack));
            && MovedPast(w, w', a, reason) && Settled(w, w', a, w.agents[a].batch[0], n.fractionable)
  {
    hide NamesSymbol, BuildPaperOrder, RouteForAccount, Apply, Settle, PrepareEvent;
    OrderHasId(w.log[w.agents[a].batch[0]], n.fractionable);
    CalmOrder(w, a, n, order, n.fractionable);
    CalmAck(Settle(w, a, n), a);
    reason := if order.clientOrderId in w.books[a] then AlreadyAtBroker else Executed;
    var w' := Apply(Settle(w, a, n), Ack(a, n.ack));
    assert w'.agents == w.agents[a := Past(w.agents[a], reason)];
  }

  lemma {:induction false} PreparedIsBuilt(w: World, a: Account, answer: bool)
    requires a in w.agents && w.agents[a].batch != [] && w.agents[a].stage.Ready? && w.agents[a].batch[0] < |w.log|
    requires Apply(w, Prepare(a, answer)).agents[a].stage.Built?
    ensures var stage := Apply(w, Prepare(a, answer)).agents[a].stage;
            && stage.fractionable == answer && BuildPaperOrder(w.log[w.agents[a].batch[0]], answer) == Ok(stage.order)
            && Apply(w, Prepare(a, answer)) == w.(agents := w.agents[a := w.agents[a].(stage := stage)])
  {
    hide BuildPaperOrder, RouteForAccount;
    var event := w.log[w.agents[a].batch[0]];
    if !NamesSymbol(event) {
      UnnamedIsInvalid(event, AskedFlag(event, answer));
    }
  }

  lemma {:induction false} AdvancesOn(w: World, w1: World, w': World, a: Account)
    requires Advances(w, w1, a) && Advances(w1, w', a)
    ensures Advances(w, w', a)
  {
  }

  lemma {:induction false} SettledStays(w: World, w1: World, w': World, a: Account, i: nat, answer: bool)
    requires i < |w.log| && a in w.books && Settled(w, w1, a, i, answer) && Advances(w1, w', a)
    requires i !in w1.agents[a].pending
    ensures Settled(w, w', a, i, answer) && i !in w'.agents[a].pending
  {
    hide NamesSymbol, BuildPaperOrder, RouteForAccount;
  }

  /** Another event's order in between changes nothing for this one. */
  lemma {:induction false} SettledBefore(w: World, w1: World, w': World, a: Account, i: nat, answer: bool)
    requires i < |w.log| && a in w.books && a in w1.books && w1.log == w.log && Settled(w1, w', a, i, answer)
    requires w.log[i].id in w1.books[a] <==> w.log[i].id in w.books[a]
    ensures Settled(w, w', a, i, answer)
  {
    hide NamesSymbol, BuildPaperOrder, RouteForAccount;
  }

  /** No event of the batch asks for an order that fails other than for good. */
  ghost predicate AllBuildable(w: World, a: Account, answers: seq<Answers>)
    requires a in w.agents
  {
    var batch := w.agents[a].batch;
    |batch| <= |answers| && forall k :: 0 <= k < |batch| ==>
      && batch[k] < |w.log| && IsCalm(answers[k])
      && (RouteForAccount(w.log[batch[k]], a).Mine? ==>
            BuildPaperOrder(w.log[batch[k]], answers[k].fractionable) != Err(Unexpected))
  }

  ghost predicate AllSettled(w: World, w': World, a: Account, answers: seq<Answers>)
    requires a in w.agents && a in w.books && AllBuildable(w, a, answers)
  {
    forall k :: 0 <= k < |w.agents[a].batch| ==>
      && Settled(w, w', a, w.agents[a].batch[k], answers[k].fractionable)
      && w.agents[a].batch[k] !in w'.agents[a].pending
  }

  lemma {:induction false} CalmBatch(w: World, a: Account, answers: seq<Answers>)
    requires Inv(w) && a in w.agents && a in w.books && w.agents[a].stage.Ready? && AllBuildable(w, a, answers)
    ensures var w' := Run(w, BatchSteps(a, answers));
            Advances(w, w', a) && AllSettled(w, w', a, answers) && w'.agents[a].batch == []
    decreases |answers|
  {
    hide Inv, Advances, Settled, MovedPast, Settle, Apply;
    HeadOk(w, a);
    if w.agents[a].batch == [] {
      NothingInHand(w, a, answers);
      AdvancesNowhere(w, a);
    } else {
      var n, i := answers[0], w.agents[a].batch[0];
      var w1 := Apply(Settle(w, a, n), Ack(a, n.ack));
      var reason := CalmEvent(w, a, n);
      FourSteps(w, Prepare(a, n.fractionable), Submit(a, n.submit), Announce(a, n.announce), Ack(a, n.ack),
                BatchSteps(a, answers[1..]));
      SettleThenAck(w, a, n);
      MovedPastAdvances(w, w1, a, reason);
      MovedPastHead(w, w1, a, reason);
      HeadKeeps(w, a, n);
      NextBuildable(w, w1, a, answers);
      CalmBatch(w1, a, answers[1..]);
      var w' := Run(w1, BatchSteps(a, answers[1..]));
      AdvancesOn(w, w1, w', a);
      forall k | 0 <= k < |w.agents[a].batch|
        ensures Settled(w, w', a, w.agents[a].batch[k], answers[k].fractionable)
        ensures w.agents[a].batch[k] !in w'.agents[a].pending
      {
        if k == 0 {
          SettledStays(w, w1, w', a, i, n.fractionable);
        } else {
          assert w1.agents[a].batch[k - 1] == w.agents[a].batch[k];
          OtherEvent(w, w1, a, k);
          SettledBefore(w, w1, w', a, w.agents[a].batch[k], answers[k].fractionable);
        }
      }
    }
  }

  lemma {:induction false} AdvancesNowhere(w: World, a: Account)
    requires a in w.agents && a in w.books
    ensures Advances(w, w, a)
  {
  }

  lemma {:induction false} SettleThenAck(w: World, a: Account, n: Answers)
    ensures Apply(Settle(w, a, n), Ack(a, n.ack))
            == Apply(Apply(Apply(Apply(w, Prepare(a, n.fractionable)), Submit(a, n.submit)), Announce(a, n.announce)),
                     Ack(a, n.ack))
  {
  }

  lemma {:induction false} MovedPastHead(w: World, w': World, a: Account, reason: Reason)
    requires a in w.agents && a in w.books && w.agents[a].batch != [] && w.agents[a].batch[0] < |w.log|
    requires MovedPast(w, w', a, reason)
    ensures w'.log == w.log && w'.agents.Keys == w.agents.Keys && w'.books.Keys == w.books.Keys
    ensures w'.agents[a] == Past(w.agents[a], reason)
  {
  }

  lemma {:induction false} HeadKeeps(w: World, a: Account, n: Answers)
    requires Inv(w) && a in w.agents
    ensures Inv(Apply(Settle(w, a, n), Ack(a, n.ack)))
  {
    hide Inv, Apply;
    StepKeeps(w, Prepare(a, n.fractionable));
    StepKeeps(Apply(w, Prepare(a, n.fractionable)), Submit(a, n.submit));
    StepKeeps(Apply(Apply(w, Prepare(a, n.fractionable)), Submit(a, n.submit)), Announce(a, n.announce));
    StepKeeps(Settle(w, a, n), Ack(a, n.ack));
  }

  lemma {:induction false} NextBuildable(w: World, w1: World, a: Account, answers: seq<Answers>)
    requires a in w.agents && w.agents[a].batch != [] && AllBuildable(w, a, answers)
    requires a in w1.agents && w1.log == w.log && w1.agents[a].batch == w.agents[a].batch[1..]
    ensures AllBuildable(w1, a, answers[1..])
  {
    hide BuildPaperOrder, RouteForAccount;
  }

  /** A later event of the batch has another id, so its order is not the one just booked. */
  lemma {:induction false} OtherEvent(w: World, w1: World, a: Account, k: nat)
    requires Inv(w) && a in w.agents && a in w.books && 0 < k < |w.agents[a].batch| && Advances(w, w1, a)
    requires w.agents[a].batch[0] < |w.log| && w.agents[a].batch[k] < |w.log|
    requires forall id :: id in w1.books[a] ==> id in w.books[a] || id == w.log[w.agents[a].batch[0]].id
    ensures w.log[w.agents[a].batch[k]].id in w1.books[a] <==> w.log[w.agents[a].batch[k]].id in w.books[a]
  {
    assert GroupOk(w, a, w.agents[a]);
  }

  /**
   A cycle in which every reply arrives, from any reachable world: every event of the batch it reads is acknowledged.
   Another account's is left alone. An own one that names a symbol is rejected or ordered as it is built under the
   venue's answer in this cycle; an order not yet at the broker ends in the book, built under that answer, and in the
   submitted stream.
   */
  lemma {:induction false} CalmCycleOrders(accounts: set<Account>, w: World, a: Account, count: nat,
                                           answers: seq<Answers>)
    requires Reachable(accounts, w) && a in w.agents && w.agents[a].batch == [] && w.agents[a].stage.Ready?
    requires AllBuildable(Apply(w, Read(a, count)), a, answers)
    ensures var r, w' := Apply(w, Read(a, count)), Run(w, PollSteps(a, count, answers));
            a in r.books && r.books == w.books && Advances(r, w', a) && AllSettled(r, w', a, answers)
  {
    hide Inv, Apply, Advances, Settled;
    ReachableInv(accounts, w);
    ReadEffect(w, a, count);
    StepKeeps(w, Read(a, count));
    HeadOk(Apply(w, Read(a, count)), a);
    FirstStep(w, Read(a, count), BatchSteps(a, answers));
    CalmBatch(Apply(w, Read(a, count)), a, answers);
  }

  /**
   What one attempt with an order built leaves, reply by reply. The order is booked unless the broker has it or
   refuses; it is announced exactly when the broker's reply arrived and the publish took effect. The attempt comes to
   an end, and the event is acknowledged if that takes effect, when the broker says it has the order, when a reply was
   malformed, or when the announcement's arrived; anything else, and an acknowledgement without a reply, leaves the
   batch for the next cycle. Nothing else changes.
   */
  ghost predicate AttemptLeaves(w: World, w': World, a: Account, n: Answers, order: Order)
    requires a in w.agents && a in w.books && w.agents[a].batch != []
  {
    var i, was, id := w.agents[a].batch[0], w.agents[a], order.clientOrderId;
    var known := id in w.books[a];
    var heard := !known && n.submit.Answered?;
    var told := heard && (n.announce.Answered? || n.announce.LostReply?);
    var done := (known && n.submit.Answered?) || (!known && n.submit.Malformed?)
                || (heard && (n.announce.Answered? || n.announce.Malformed?));
    var reason := if known then AlreadyAtBroker
                  else if heard && n.announce.Answered? then Executed else AcceptedUnrecorded;
    var acked := done && (n.ack.Answered? || n.ack.LostReply?);
    && w'.log == w.log
    && w'.books == (if known || n.submit.Refused? then w.books
                    else w.books[a := w.books[a][id := Placed(order, i, n.fractionable)]])
    && w'.submitted == w.submitted + (if told then [Submitted(id, a, order)] else [])
    && w'.agents == w.agents[a := Agent(was.next, if acked then was.pending - {i} else was.pending,
                                        if acked then was.acked[i := reason] else was.acked,
                                        if done && n.ack.Answered? then was.batch[1..] else [], Ready)]
  }

  /** So goes every attempt at an own event whose order is built; the order carries the event's id. */
  lemma {:induction false} AttemptExactly(w: World, a: Account, n: Answers, order: Order)
    requires a in w.agents && a in w.books && w.agents[a].batch != [] && w.agents[a].stage.Ready?
    requires w.agents[a].batch[0] < |w.log|
    requires var event := w.log[w.agents[a].batch[0]];
             RouteForAccount(event, a).Mine? && NamesSymbol(event)
             && BuildPaperOrder(event, n.fractionable) == Ok(order)
    ensures order.clientOrderId == w.log[w.agents[a].batch[0]].id
    ensures AttemptLeaves(w, Apply(Settle(w, a, n), Ack(a, n.ack)), a, n, order)
  {
    hide NamesSymbol, BuildPaperOrder, RouteForAccount, Apply, Settle, PrepareEvent;
    OrderHasId(w.log[w.agents[a].batch[0]], n.fractionable);
    BuildsUnderTheAnswer(w, a, n.fractionable);
    PreparedIsBuilt(w, a, n.fractionable);
    SettleThenAck(w, a, n);
    var p := w.(agents := w.agents[a := w.agents[a].(stage := Built(order, n.fractionable))]);
    assert Apply(w, Prepare(a, n.fractionable)) == p;
    BuiltAttempt(p, a, n, order);
  }

  lemma {:induction false} BuiltAttempt(w: World, a: Account, n: Answers, order: Order)
    requires a in w.agents && a in w.books && w.agents[a].batch != []
    requires w.agents[a].stage == Built(order, n.fractionable)
    ensures AttemptLeaves(w, Apply(Apply(Apply(w, Submit(a, n.submit)), Announce(a, n.announce)), Ack(a, n.ack)), a, n,
                          order)
  {
    if order.clientOrderId in w.books[a] {
      KnownAttempt(w, a, n, order);
    } else if n.submit.Answered? {
      HeardAttempt(w, a, n, order);
    } else {
      UnheardAttempt(w, a, n, order);
    }
  }

  lemma {:induction false} KnownAttempt(w: World, a: Account, n: Answers, order: Order)
    requires a in w.agents && a in w.books && w.agents[a].batch != []
    requires w.agents[a].stage == Built(order, n.fractionable) && order.clientOrderId in w.books[a]
    ensures AttemptLeaves(w, Apply(Apply(Apply(w, Submit(a, n.submit)), Announce(a, n.announce)), Ack(a, n.ack)), a, n,
                          order)
  {
    var w1 := Apply(w, Submit(a, n.submit));
    if n.submit.Answered? {
      DoneSkips(w1, a, n.submit, n.announce);
    } else {
      IdleSkips(w1, a, n);
    }
  }

  lemma {:induction false} UnheardAttempt(w: World, a: Account, n: Answers, order: Order)
    requires a in w.agents && a in w.books && w.agents[a].batch != [] && !n.submit.Answered?
    requires w.agents[a].stage == Built(order, n.fractionable) && order.clientOrderId !in w.books[a]
    ensures AttemptLeaves(w, Apply(Apply(Apply(w, Submit(a, n.submit)), Announce(a, n.announce)), Ack(a, n.ack)), a, n,
                          order)
  {
    var w1 := Apply(w, Submit(a, n.submit));
    if n.submit.Malformed? {
      DoneSkips(w1, a, n.submit, n.announce);
    } else {
      IdleSkips(w1, a, n);
    }
  }

  lemma {:induction false} HeardAttempt(w: World, a: Account, n: Answers, order: Order)
    requires a in w.agents && a in w.books && w.agents[a].batch != [] && n.submit.Answered?
    requires w.agents[a].stage == Built(order, n.fractionable) && order.clientOrderId !in w.books[a]
    ensures AttemptLeaves(w, Apply(Apply(Apply(w, Submit(a, n.submit)), Announce(a, n.announce)), Ack(a, n.ack)), a, n,
                          order)
  {
    var w1 := Apply(w, Submit(a, n.submit));
    assert w1.agents[a].stage == AtBroker(order);
    var w2 := Apply(w1, Announce(a, n.announce));
    if !w2.agents[a].stage.Done? {
      IdleSkips(w2, a, n);
    }
  }

  /** What one event adds to the announced orders: counted if it is executed, and only then if the batch goes on. */
  lemma {:induction false} EventCounts(w: World, a: Account, n: Answers)
    requires Inv(w) && a in w.agents && w.agents[a].batch != [] && w.agents[a].stage.Ready?
    ensures var w1 := Apply(Settle(w, a, n), Ack(a, n.ack));
            && a in w1.agents && w1.agents[a].stage.Ready?
            && |w1.submitted| <= |w.submitted| + 1
            && (Executes(w, a, n) ==> |w1.submitted| == |w.submitted| + 1)
            && (w1.agents[a].batch != [] && !Executes(w, a, n) ==> |w1.submitted| == |w.submitted|)
            && |w1.submitted| >= |w.submitted|
  {
    hide Inv, Apply;
    HeadOk(w, a);
    HeadInLog(w, a);
    PreparedKinds(w, a, n.fractionable);
    var p := Apply(w, Prepare(a, n.fractionable));
    var s := Apply(Apply(p, Submit(a, n.submit)), Announce(a, n.announce));
    assert Settle(w, a, n) == s;
    if p.agents[a].stage.Built? {
      var stage := p.agents[a].stage;
      BuiltAttempt(p, a, Answers(stage.fractionable, n.submit, n.announce, n.ack), stage.order);
      BuiltExecutes(p, a, n.submit, n.announce);
    } else if p.agents[a].stage.Done? {
      DoneSkips(p, a, n.submit, n.announce);
      AckEffect(p, a, n.ack);
    } else {
      IdleSkips(p, a, n);
    }
  }

  /** After `Prepare` an order is built, or the event is settled without one, or the batch is abandoned. */
  lemma {:induction false} PreparedKinds(w: World, a: Account, answer: bool)
    requires a in w.agents && a in w.books && w.agents[a].batch != [] && w.agents[a].stage.Ready?
    requires w.agents[a].batch[0] < |w.log|
    ensures var p := Apply(w, Prepare(a, answer));
            && p.submitted == w.submitted && p.books == w.books && a in p.agents
            && (p.agents[a].stage.Ready? ==> p.agents[a].batch == [])
            && (!p.agents[a].stage.Ready? ==> p.agents[a].batch != [])
            && p.agents[a].stage != Done(Executed) && !p.agents[a].stage.AtBroker?
  {
    hide BuildPaperOrder, RouteForAccount, AskedFlag;
  }

  /** It is executed exactly when the broker did not have it and both replies arrived. */
  lemma {:induction false} BuiltExecutes(p: World, a: Account, submit: Reply, announce: Reply)
    requires a in p.agents && a in p.books && p.agents[a].batch != [] && p.agents[a].stage.Built?
    ensures var s := Apply(Apply(p, Submit(a, submit)), Announce(a, announce));
            && a in s.agents
            && (s.agents[a].stage == Done(Executed)
                <==> p.agents[a].stage.order.clientOrderId !in p.books[a] && submit.Answered? && announce.Answered?)
  {
  }

  lemma {:induction false} IdleSkips(p: World, a: Account, n: Answers)
    requires a in p.agents && p.agents[a].batch == [] && p.agents[a].stage.Ready?
    ensures Apply(p, Submit(a, n.submit)) == p && Apply(p, Announce(a, n.announce)) == p && Apply(p, Ack(a, n.ack)) == p
  {
  }

  /** A cycle's count is what it announced, save that its last announcement may go uncounted. */
  lemma {:induction false} CountsAnnounced(w: World, a: Account, answers: seq<Answers>)
    requires Inv(w) && a in w.agents && w.agents[a].stage.Ready?
    ensures var growth := |Run(w, BatchSteps(a, answers)).submitted| - |w.submitted|;
            growth - 1 <= Executions(w, a, answers) <= growth
    decreases |answers|
  {
    hide Inv, Apply, Settle, Executes;
    if w.agents[a].batch == [] {
      NothingInHand(w, a, answers);
    } else if answers == [] {
      CrashEffect(w, a);
      FirstStep(w, Crash(a), []);
      assert [Crash(a)] + [] == [Crash(a)];
    } else {
      var n := answers[0];
      var w1 := Apply(Settle(w, a, n), Ack(a, n.ack));
      EventCounts(w, a, n);
      HeadKeeps(w, a, n);
      SettleThenAck(w, a, n);
      FourSteps(w, Prepare(a, n.fractionable), Submit(a, n.submit), Announce(a, n.announce), Ack(a, n.ack),
                BatchSteps(a, answers[1..]));
      if w1.agents[a].batch == [] {
        NothingInHand(w1, a, answers[1..]);
      } else {
        CountsAnnounced(w1, a, answers[1..]);
      }
    }
  }

  /**
   The batch a cycle reads. Anything pending, it is what is pending, in order and at most `count` of it; otherwise the
   next `count` events of the stream, as far as it goes, which become pending.
   */
  lemma {:induction false} BatchIsNext(w: World, a: Account, count: nat)
    requires a in w.agents && w.agents[a].batch == [] && w.agents[a].stage.Ready?
    requires w.agents[a].next <= |w.log| && forall i <- w.agents[a].pending :: i < w.agents[a].next
    ensures a in Apply(w, Read(a, count)).agents
    ensures var agent, read, logged := w.agents[a], Apply(w, Read(a, count)).agents[a], |w.log|;
            var upto := agent.next + count;
            if agent.pending != {} then
              && read.next == agent.next && read.pending == agent.pending
              && (forall i <- read.batch :: i in agent.pending)
              && (forall i <- agent.pending :: i in read.batch
                                               || (|read.batch| == count && forall j <- read.batch :: j < i))
            else
              && read.next == (if upto < logged then upto else logged) && read.pending == (set i | i in read.batch)
              && forall i: nat :: i in read.batch <==> agent.next <= i < read.next
  {
    var agent, logged := w.agents[a], |w.log|;
    var upto := if agent.next + count < logged then agent.next + count else logged;
    if agent.pending != {} {
      FirstOnes(agent.pending, 0, agent.next, count);
    } else {
      FirstOnes(Positions(agent.next, upto), agent.next, upto, count);
      AtMostSpan(Positions(agent.next, upto), agent.next, upto, count);
    }
  }

  /** Whatever is left out comes after a full batch. */
  lemma {:induction false} FirstOnes(pending: set<nat>, from: nat, upto: nat, limit: nat)
    ensures var batch := FirstPending(pending, from, upto, limit);
            forall i: nat :: from <= i < upto && i in pending && i !in batch ==>
              |batch| == limit && forall j <- batch :: j < i
    decreases upto - from
  {
    if from < upto && limit > 0 {
      FirstOnes(pending, from + 1, upto, if from in pending then limit - 1 else limit);
    }
  }

  lemma {:induction false} AtMostSpan(pending: set<nat>, from: nat, upto: nat, limit: nat)
    requires upto <= from + limit
    ensures forall i: nat :: from <= i < upto && i in pending ==> i in FirstPending(pending, from, upto, limit)
    decreases upto - from
  {
    if from < upto {
      if from in pending {
        AtMostSpan(pending, from + 1, upto, limit - 1);
      } else {
        AtMostSpan(pending, from + 1, upto, limit);
      }
    }
  }

  /**
   So a tradeable event of this account, for a positive quantity that fits and that the venue takes, ends ordered: in
   the book under its own id, and, unless the broker had the order before, announced and recorded as executed.
   */
  lemma {:induction false} TradeableIsOrdered(accounts: set<Account>, w: World, a: Account, count: nat,
                                              answers: seq<Answers>, k: nat)
    requires Reachable(accounts, w) && a in w.agents && w.agents[a].batch == [] && w.agents[a].stage.Ready?
    requires AllBuildable(Apply(w, Read(a, count)), a, answers) && k < |Apply(w, Read(a, count)).agents[a].batch|
    requires var event := w.log[Apply(w, Read(a, count)).agents[a].batch[k]];
             && NamedAccount(event) == a && a != "" && Tradeable(event) && Asked(event).Exact?
             && var q := Asked(event).value;
                q.units > 0 && DecimalText.Nanos(q) < DecimalText.CONTEXT_LIMIT
                && (answers[k].fractionable || q.units >= DecimalText.Pow10(q.scale))
    ensures var i := Apply(w, Read(a, count)).agents[a].batch[k];
            var event, w' := w.log[i], Run(w, PollSteps(a, count, answers));
            && a in w'.agents && a in w'.books && event.id in w'.books[a] && i in w'.agents[a].acked
            && i !in w'.agents[a].pending
            && (a !in w.books || event.id !in w.books[a] ==>
                  && w'.agents[a].acked[i] == Executed && w'.books[a][event.id].fractionable == answers[k].fractionable
                  && Submitted(event.id, a, w'.books[a][event.id].order) in w'.submitted)
  {
    hide Inv, Apply, Advances, BuildPaperOrder, Run;
    CalmCycleOrders(accounts, w, a, count, answers);
    var r := Apply(w, Read(a, count));
    ReachableInv(accounts, w);
    ReadEffect(w, a, count);
    var event := w.log[r.agents[a].batch[k]];
    AcceptedExactly(event, answers[k].fractionable);
    assert Settled(r, Run(w, PollSteps(a, count, answers)), a, r.agents[a].batch[k], answers[k].fractionable);
  }

  lemma {:induction false} OrderHasId(event: RiskEvent, fractionable: bool)
    ensures BuildPaperOrder(event, fractionable).Ok? ==>
              BuildPaperOrder(event, fractionable).value.clientOrderId == event.id
  {
  }

  class ExecutionAgent {
    const accountId: Account
    const bus: Bus

    constructor (accountId: Account, bus: Bus)
      ensures this.accountId == accountId && this.bus == bus
    {
      this.accountId, this.bus := accountId, bus;
    }

    /** Between cycles: an agent with a group and a book, and no batch in hand. */
    ghost predicate Idle()
      reads this, bus
    {
      && accountId in bus.world.agents && accountId in bus.world.books
      && bus.world.agents[accountId].batch == [] && bus.world.agents[accountId].stage.Ready?
    }

    /**
     `poll_once`: read a batch, and for each event route, submit, publish and acknowledge; ValueError and
     a duplicate order acknowledge and go on, any other exception abandons the rest of the batch.
     */
    method PollOnce(count: nat, answers: seq<Answers>) returns (processed: nat)
      requires Idle() && Inv(bus.world)
      modifies bus
      ensures bus.world == Run(old(bus.world), PollSteps(accountId, count, answers))
      ensures Idle() && Inv(bus.world)
      ensures processed == Executions(Apply(old(bus.world), Read(accountId, count)), accountId, answers)
      ensures processed <= |bus.world.submitted| - |old(bus.world.submitted)|
    {
      hide Inv, Apply, Executes;
      processed := 0;
      ghost var goal := Run(bus.world, PollSteps(accountId, count, answers));
      FirstStep(bus.world, Read(accountId, count), BatchSteps(accountId, answers));
      ReadEffect(bus.world, accountId, count);
      StepKeeps(bus.world, Read(accountId, count));
      bus.Perform(Read(accountId, count));
      var events := bus.world.agents[accountId].batch;
      var i := 0;
      assert answers[0..] == answers && events[0..] == events;
      while i < |events| && i < |answers|
        invariant 0 <= i <= |events| && i <= |answers| && Inv(bus.world)
        invariant accountId in bus.world.agents && accountId in bus.world.books
        invariant bus.world.agents[accountId].stage.Ready? && bus.world.agents[accountId].batch == events[i..]
        invariant Run(bus.world, BatchSteps(accountId, answers[i..])) == goal
        invariant processed <= |bus.world.submitted| - |old(bus.world.submitted)|
        invariant processed + Executions(bus.world, accountId, answers[i..])
                  == Executions(Apply(old(bus.world), Read(accountId, count)), accountId, answers)
      {
        var n := answers[i];
        assert answers[i..][1..] == answers[i + 1..] && events[i..][1..] == events[i + 1..];
        HeadInLog(bus.world, accountId);
        FourSteps(bus.world, Prepare(accountId, n.fractionable), Submit(accountId, n.submit),
                  Announce(accountId, n.announce), Ack(accountId, n.ack), BatchSteps(accountId, answers[i + 1..]));
        var goOn, executed := ProcessEvent(events[i], n);
        i := i + 1;
        if executed {
          processed := processed + 1;
        }
        if !goOn {
          NothingInHand(bus.world, accountId, answers[i..]);
          return;
        }
      }
      if i < |events| {
        // The process stops here with events still in hand.
        assert answers[i..] == [];
        FirstStep(bus.world, Crash(accountId), []);
        CrashEffect(bus.world, accountId);
        StepKeeps(bus.world, Crash(accountId));
        bus.Perform(Crash(accountId));
      } else {
        NothingInHand(bus.world, accountId, answers[i..]);
      }
    }

    /** The body of the loop, with its except clauses. `goOn` is false where the source breaks out. */
    method ProcessEvent(position: nat, n: Answers) returns (goOn: bool, executed: bool)
      requires Inv(bus.world) && accountId in bus.world.agents && accountId in bus.world.books
      requires bus.world.agents[accountId].stage.Ready? && bus.world.agents[accountId].batch != []
      requires bus.world.agents[accountId].batch[0] == position && position < |bus.world.log|
      modifies bus
      ensures bus.world == Apply(Settle(old(bus.world), accountId, n), Ack(accountId, n.ack))
      ensures executed <==> Executes(old(bus.world), accountId, n)
      ensures Inv(bus.world) && accountId in bus.world.agents && accountId in bus.world.books
      ensures bus.world.agents[accountId].stage.Ready?
      ensures bus.world.agents[accountId].batch == if goOn then old(bus.world.agents[accountId].batch)[1..] else []
      ensures |bus.world.submitted| >= |old(bus.world.submitted)| + (if executed then 1 else 0)
    {
      hide Inv, Apply, Settle;
      var settled, announced := SettleEvent(position, n);
      if !settled {
        SkipAck(bus.world, accountId, n.ack);
        return false, false;
      }
      StepKeeps(bus.world, Ack(accountId, n.ack));
      AckEffect(bus.world, accountId, n.ack);
      bus.Perform(Ack(accountId, n.ack));
      return n.ack.Answered?, announced && n.ack.Answered?;
    }

    /** The event up to its acknowledgement; `settled` is false where any other exception leaves it unacknowledged. */
    method SettleEvent(position: nat, n: Answers) returns (settled: bool, announced: bool)
      requires Inv(bus.world) && accountId in bus.world.agents && accountId in bus.world.books
      requires bus.world.agents[accountId].stage.Ready? && bus.world.agents[accountId].batch != []
      requires bus.world.agents[accountId].batch[0] == position && position < |bus.world.log|
      modifies bus
      ensures bus.world == Settle(old(bus.world), accountId, n)
      ensures Inv(bus.world) && accountId in bus.world.agents && accountId in bus.world.books
      ensures announced <==> bus.world.agents[accountId].stage == Done(Executed)
      ensures if settled
              then bus.world.agents[accountId].stage.Done?
              && bus.world.agents[accountId].batch == old(bus.world.agents[accountId].batch)
              else bus.world.agents[accountId].stage.Ready? && bus.world.agents[accountId].batch == []
      ensures |bus.world.submitted| >= |old(bus.world.submitted)| + (if announced then 1 else 0)
    {
      hide Inv, Apply, BuildPaperOrder, RouteForAccount;
      var event := bus.world.log[position];
      var routing := RouteForAccount(event, accountId);
      StepKeeps(bus.world, Prepare(accountId, n.fractionable));
      PrepareEffect(bus.world, accountId, n.fractionable);
      bus.Perform(Prepare(accountId, n.fractionable));
      if !routing.Mine? {
        DoneSkips(bus.world, accountId, n.submit, n.announce);
        return true, false;
      }
      match BuildPaperOrder(event, AskedFlag(event, n.fractionable)) {
        case Err(Invalid) =>
          DoneSkips(bus.world, accountId, n.submit, n.announce);
          return true, false;
        case Err(Unexpected) =>
          SkipRest(bus.world, accountId, n);
          return false, false;
        case Ok(order) =>
          StepKeeps(bus.world, Submit(accountId, n.submit));
          SubmitEffect(bus.world, accountId, n.submit);
          var submitted := bus.SubmitToBroker(accountId, n.submit);
          if submitted.RaisedOther? {
            SkipRest(bus.world, accountId, n);
            return false, false;
          }
          if !submitted.Returned? {
            DoneSkips(bus.world, accountId, n.submit, n.announce);
            return true, false;
          }
          StepKeeps(bus.world, Announce(accountId, n.announce));
          AnnounceEffect(bus.world, accountId, n.announce);
          var published := bus.Publish(accountId, n.announce);
          return !published.RaisedOther?, published.Returned?;
      }
    }
  }

  lemma {:induction false} SkipRest(w: World, a: Account, n: Answers)
    requires a in w.agents && w.agents[a].batch == []
    ensures Apply(w, Submit(a, n.submit)) == w && Apply(w, Announce(a, n.announce)) == w
  {
  }

  lemma {:induction false} SkipAck(w: World, a: Account, ack: Reply)
    requires a in w.agents && w.agents[a].batch == []
    ensures Apply(w, Ack(a, ack)) == w
  {
  }
}
