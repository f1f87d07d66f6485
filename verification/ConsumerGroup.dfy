/**
 Redis consumer groups as the services use them: src/shrap/events/groups.py, with the batch
 loop of src/shrap/trading_floor/order_store_agent.py.

 The server side is plain state. Every awaited command may raise: `Luck` says how many
 commands of a cycle succeed, and whether the one that raises had already taken effect
 (its reply was lost). A crash is a cycle that stops the same way.
 */
module ConsumerGroup {
  import opened Wrappers

  // ----- the server -----

  /** A stream entry: an envelope, or fields no envelope can be built from. */
  datatype Entry<+E> = WellFormed(event: E) | Malformed

  /**
   One stream and this service's group on it. `next` is one past the last-delivered id.
   `delivered`, `acked` and `calls` are the history: what the group handed out, what was
   acknowledged, and each entry the service began to process, in order, with how that ended.
   */
  datatype Stream<E> = Stream(log: seq<Entry<E>>, trimmed: set<nat>, hasGroup: bool, next: nat,
                              delivered: set<nat>, pending: set<nat>, acked: set<nat>, calls: seq<Taken>)
  {
    /** The entry is still there and carries an envelope. */
    predicate Readable(i: nat) {
      i < |log| && i !in trimmed && log[i].WellFormed?
    }

    /** At most `limit` entries from position `from` on that have not been trimmed. */
    function Fresh(from: nat, limit: nat): (ids: seq<nat>)
      ensures |ids| <= limit && Ascending(ids)
      ensures forall a :: 0 <= a < |ids| ==> from <= ids[a] < |log|
      decreases |log| - from
    {
      if limit == 0 || from >= |log| then []
      else if from in trimmed then Fresh(from + 1, limit)
      else
        var rest := Fresh(from + 1, limit - 1);
        [from] + rest
    }

    /** What `XREADGROUP ... >` hands out. */
    function Offer(count: nat): (ids: seq<nat>)
      ensures |ids| <= count && Ascending(ids)
      ensures forall a :: 0 <= a < |ids| ==> next <= ids[a] < |log|
    {
      Fresh(next, count)
    }

    /** Its effect on the group: the entries are delivered and pending. */
    function Deliver(count: nat): Stream<E> {
      var ids := Offer(count);
      var new' := set a | 0 <= a < |ids| :: ids[a];
      this.(next := if ids == [] then next else ids[|ids| - 1] + 1, delivered := delivered + new',
            pending := pending + new')
    }

    /** `XACK`. */
    function Ack(i: nat): Stream<E> {
      if i in pending then this.(pending := pending - {i}, acked := acked + {i}) else this
    }

    function Call(i: nat, how: Handling): Stream<E> {
      this.(calls := calls + [Taken(i, how)])
    }
  }

  /** What processing one event comes to: done, permanently unprocessable, or a failure a retry can clear. */
  datatype Handling = Processed | Poison | Systemic

  /** One attempt at an entry. */
  datatype Taken = Taken(entry: nat, how: Handling)

  type Server<E> = seq<Stream<E>>

  /** One delivered entry: which stream, and its position there. */
  datatype Ref = Ref(stream: nat, entry: nat)

  predicate Ascending(s: seq<nat>) {
    forall a, b :: 0 <= a < b < |s| ==> s[a] < s[b]
  }

  predicate NonDecreasing(s: seq<Taken>) {
    forall a, b :: 0 <= a < b < |s| ==> s[a].entry <= s[b].entry
  }

  /** The members of `ids` from `from` up to `upto`, in id order. */
  function InIdOrder(ids: set<nat>, from: nat, upto: nat): (r: seq<nat>)
    ensures Ascending(r)
    ensures forall a :: 0 <= a < |r| ==> from <= r[a] < upto && r[a] in ids
    decreases upto - from
  {
    if from >= upto then []
    else if from in ids then [from] + InIdOrder(ids, from + 1, upto)
    else InIdOrder(ids, from + 1, upto)
  }

  lemma {:induction false} InIdOrderComplete(ids: set<nat>, from: nat, upto: nat)
    ensures forall i :: from <= i < upto && i in ids ==> i in InIdOrder(ids, from, upto)
    decreases upto - from
  {
    if from < upto {
      InIdOrderComplete(ids, from + 1, upto);
    }
  }

  lemma {:induction false} InIdOrderSize(ids: set<nat>, from: nat, upto: nat)
    ensures |InIdOrder(ids, from, upto)| <= |ids|
    decreases upto - from
  {
    if from < upto {
      if from in ids {
        InIdOrderSize(ids - {from}, from + 1, upto);
        InIdOrderIgnores(ids, from, from + 1, upto);
      } else {
        InIdOrderSize(ids, from + 1, upto);
      }
    }
  }

  lemma {:induction false} InIdOrderIgnores(ids: set<nat>, below: nat, from: nat, upto: nat)
    requires below < from
    ensures InIdOrder(ids - {below}, from, upto) == InIdOrder(ids, from, upto)
    decreases upto - from
  {
    if from < upto {
      InIdOrderIgnores(ids, below, from + 1, upto);
    }
  }

  /** How the commands of one cycle go: `commands` succeed, then one raises, perhaps after taking effect. */
  datatype Luck = Luck(commands: nat, lostReply: bool)

  datatype Attempt<S> = Attempt(state: S, luck: Luck, raised: bool)

  /** One command that turns `before` into `after`. */
  function Try<S>(before: S, after: S, luck: Luck): Attempt<S> {
    if luck.commands > 0 then Attempt(after, luck.(commands := luck.commands - 1), false)
    else Attempt(if luck.lostReply then after else before, luck, true)
  }

  // ----- one read -----

  /** `ensure_group` over the streams from `k` on; an existing group answers BUSYGROUP, which is success. */
  function EnsureFrom<E>(server: Server<E>, ensured: set<nat>, k: nat, luck: Luck): (Attempt<Server<E>>, set<nat>)
    decreases |server| - k
  {
    if k >= |server| then (Attempt(server, luck, false), ensured)
    else if k in ensured then EnsureFrom(server, ensured, k + 1, luck)
    else
      var made := Try(server, server[k := server[k].(hasGroup := true)], luck);
      if made.raised then (made, ensured) else EnsureFrom(made.state, ensured + {k}, k + 1, made.luck)
  }

  function Tagged(k: nat, ids: seq<nat>): (refs: seq<Ref>)
    ensures |refs| == |ids| && forall i :: 0 <= i < |ids| ==> refs[i] == Ref(k, ids[i])
  {
    seq(|ids|, i requires 0 <= i < |ids| => Ref(k, ids[i]))
  }

  /** The reply to a pending read: each stream's first `count` pending entries, streams in order. */
  function PendingReply<E>(server: Server<E>, count: nat, k: nat := 0): (reply: seq<Ref>)
    decreases |server| - k
  {
    if k >= |server| then []
    else
      var ids := InIdOrder(server[k].pending, 0, server[k].next);
      Tagged(k, if |ids| <= count then ids else ids[..count]) + PendingReply(server, count, k + 1)
  }

  function DeliverAll<E>(server: Server<E>, count: nat): (r: Server<E>)
    ensures |r| == |server| && forall k :: 0 <= k < |server| ==> r[k] == server[k].Deliver(count)
  {
    seq(|server|, k requires 0 <= k < |server| => server[k].Deliver(count))
  }

  datatype Sifted<E> = Sifted(server: Server<E>, luck: Luck, events: Option<seq<Ref>>)

  /** Entries of a reply that cannot be read are acknowledged on the spot; the others are returned. */
  function Sift<E>(server: Server<E>, reply: seq<Ref>, luck: Luck): Sifted<E>
    requires forall r <- reply :: r.stream < |server|
    decreases |reply|
  {
    if reply == [] then Sifted(server, luck, Some([]))
    else if server[reply[0].stream].Readable(reply[0].entry) then
      Prepended([reply[0]], Sift(server, reply[1..], luck))
    else
      var dropped := Try(server, AckRef(server, reply[0]), luck);
      if dropped.raised then Sifted(dropped.state, dropped.luck, None)
      else Sift(dropped.state, reply[1..], dropped.luck)
  }

  function AckRef<E>(server: Server<E>, r: Ref): (s: Server<E>)
    requires r.stream < |server|
    ensures |s| == |server|
  {
    server[r.stream := server[r.stream].Ack(r.entry)]
  }

  function Prepended<E>(front: seq<Ref>, rest: Sifted<E>): Sifted<E> {
    if rest.events.None? then rest else rest.(events := Some(front + rest.events.value))
  }

  datatype ReadResult<E> = ReadResult(server: Server<E>, ensured: set<nat>, luck: Luck, events: Option<seq<Ref>>)

  /** `read`: ensure the groups, drain what is pending, and only when nothing came of that ask for new entries. */
  function ReadSpec<E>(server: Server<E>, ensured: set<nat>, count: nat, luck: Luck): ReadResult<E> {
    var (made, known) := EnsureFrom(server, ensured, 0, luck);
    if made.raised then ReadResult(made.state, known, made.luck, None) else
    var asked := Try(made.state, made.state, made.luck);
    if asked.raised then ReadResult(made.state, known, asked.luck, None) else
    PendingReplyInRange(made.state, count, 0);
    var old' := Sift(made.state, PendingReply(made.state, count), asked.luck);
    if old'.events.None? || old'.events.value != [] then
      ReadResult(old'.server, known, old'.luck, old'.events)
    else
      ReadNewSpec(old'.server, known, count, old'.luck)
  }

  function ReadNewSpec<E>(server: Server<E>, known: set<nat>, count: nat, luck: Luck): ReadResult<E> {
    var given := Try(server, DeliverAll(server, count), luck);
    if given.raised then ReadResult(given.state, known, given.luck, None) else
    FreshReplyInRange(server, count, 0);
    var handed := Sift(given.state, FreshReply(server, count), given.luck);
    ReadResult(handed.server, known, handed.luck, handed.events)
  }

  /** The reply to a read of new entries. */
  function FreshReply<E>(server: Server<E>, count: nat, k: nat := 0): (reply: seq<Ref>)
    decreases |server| - k
  {
    if k >= |server| then []
    else Tagged(k, server[k].Offer(count)) + FreshReply(server, count, k + 1)
  }

  lemma {:induction false} PendingReplyInRange<E>(server: Server<E>, count: nat, k: nat)
    ensures forall r <- PendingReply(server, count, k) :: k <= r.stream < |server|
    decreases |server| - k
  {
    if k < |server| {
      PendingReplyInRange(server, count, k + 1);
    }
  }

  lemma {:induction false} FreshReplyInRange<E>(server: Server<E>, count: nat, k: nat)
    ensures forall r <- FreshReply(server, count, k) :: k <= r.stream < |server|
    decreases |server| - k
  {
    if k < |server| {
      FreshReplyInRange(server, count, k + 1);
    }
  }

  // ----- one cycle -----

  /** The batch loop: acknowledge what was processed or is poison, stop at the first systemic failure. */
  function ProcessSpec<E>(server: Server<E>, events: seq<Ref>, outcomes: seq<Handling>, luck: Luck): (s: Server<E>)
    requires forall r <- events :: r.stream < |server|
    ensures |s| == |server|
    decreases |events|
  {
    if events == [] || outcomes == [] then server
    else
      var r := events[0];
      var called := server[r.stream := server[r.stream].Call(r.entry, outcomes[0])];
      if outcomes[0].Systemic? then called
      else
        var acked := Try(called, AckRef(called, r), luck);
        if acked.raised then acked.state else ProcessSpec(acked.state, events[1..], outcomes[1..], acked.luck)
  }

  /** A service process and the server it talks to. `ensured` is lost on restart. */
  datatype World<E> = World(server: Server<E>, ensured: set<nat>)

  function PollSpec<E>(w: World<E>, count: nat, luck: Luck, outcomes: seq<Handling>): World<E> {
    var read := ReadSpec(w.server, w.ensured, count, luck);
    if read.events.None? then World(read.server, read.ensured)
    else
      ReadInRange(w.server, w.ensured, count, luck);
      World(ProcessSpec(read.server, read.events.value, outcomes, read.luck), read.ensured)
  }

  lemma {:induction false} SiftInRange<E>(server: Server<E>, reply: seq<Ref>, luck: Luck)
    requires forall r <- reply :: r.stream < |server|
    ensures var s := Sift(server, reply, luck);
            |s.server| == |server| && (s.events.Some? ==> forall r <- s.events.value :: r in reply)
    decreases |reply|
  {
    if reply != [] {
      if server[reply[0].stream].Readable(reply[0].entry) {
        SiftInRange(server, reply[1..], luck);
      } else {
        var dropped := Try(server, AckRef(server, reply[0]), luck);
        if !dropped.raised {
          SiftInRange(dropped.state, reply[1..], dropped.luck);
        }
      }
    }
  }

  lemma {:induction false} EnsureInRange<E>(server: Server<E>, ensured: set<nat>, k: nat, luck: Luck)
    ensures |EnsureFrom(server, ensured, k, luck).0.state| == |server|
    decreases |server| - k
  {
    if k < |server| {
      if k in ensured {
        EnsureInRange(server, ensured, k + 1, luck);
      } else {
        var made := Try(server, server[k := server[k].(hasGroup := true)], luck);
        if !made.raised {
          EnsureInRange(made.state, ensured + {k}, k + 1, made.luck);
        }
      }
    }
  }

  lemma {:induction false} ReadInRange<E>(server: Server<E>, ensured: set<nat>, count: nat, luck: Luck)
    ensures var read := ReadSpec(server, ensured, count, luck);
            && |read.server| == |server|
            && (read.events.Some? ==> forall r <- read.events.value :: r.stream < |server|)
  {
    EnsureInRange(server, ensured, 0, luck);
    var (made, known) := EnsureFrom(server, ensured, 0, luck);
    if !made.raised {
      PendingReplyInRange(made.state, count, 0);
      var asked := Try(made.state, made.state, made.luck);
      SiftInRange(made.state, PendingReply(made.state, count), asked.luck);
      var old' := Sift(made.state, PendingReply(made.state, count), asked.luck);
      FreshReplyInRange(old'.server, count, 0);
      var given := Try(old'.server, DeliverAll(old'.server, count), old'.luck);
      SiftInRange(given.state, FreshReply(old'.server, count), given.luck);
    }
  }

  // ----- what every step keeps -----

  /**
   The contract of the group on one stream, for a service that always reads with the same `count`:
   each delivered entry is exactly one of pending and acknowledged, at most one batch is pending,
   and acknowledgements and processing never overtake a readable pending entry.
   */
  ghost predicate StreamInv<E>(s: Stream<E>, count: nat) {
    Accounted(s) && |s.pending| <= count && AcksInOrder(s) && CallsInOrder(s)
  }

  /** Every delivered entry is exactly one of pending and acknowledged, and only trimmed entries were passed over. */
  ghost predicate Accounted<E>(s: Stream<E>) {
    && s.delivered == s.pending + s.acked && s.pending !! s.acked
    && s.next <= |s.log| && (forall i <- s.delivered :: i < s.next)
    && forall i: nat :: i < s.next ==> i in s.delivered || i in s.trimmed
  }

  /** Among readable entries, every acknowledged one comes before every pending one. */
  ghost predicate AcksInOrder<E>(s: Stream<E>) {
    forall i, j :: i in s.acked && j in s.pending && s.Readable(i) && s.Readable(j) ==> i < j
  }

  /** Processing went through the stream in order, repeated at most its last entry, and skipped no acknowledged one. */
  ghost predicate CallsInOrder<E>(s: Stream<E>) {
    && NonDecreasing(s.calls) && (forall a :: 0 <= a < |s.calls| ==> s.calls[a].entry in s.delivered)
    && (forall a, j :: 0 <= a < |s.calls| && j in s.pending && s.Readable(j) ==> s.calls[a].entry <= j)
    && (forall i <- s.acked :: s.Readable(i) ==> Settled(s, i))
  }

  /** Some attempt at the entry was processed, or found it poison. */
  ghost predicate Settled<E>(s: Stream<E>, i: nat) {
    exists a :: 0 <= a < |s.calls| && s.calls[a].entry == i && !s.calls[a].how.Systemic?
  }

  ghost predicate Inv<E>(server: Server<E>, count: nat) {
    forall k :: 0 <= k < |server| ==> StreamInv(server[k], count)
  }

  /** `i` is the first readable pending entry. */
  ghost predicate IsHead<E>(s: Stream<E>, i: nat) {
    i in s.pending && s.Readable(i) && forall j <- s.pending :: s.Readable(j) ==> i <= j
  }

  /** What may be acknowledged: an unreadable entry, or the first readable one once it was processed. */
  ghost predicate MayAck<E>(s: Stream<E>, i: nat) {
    !s.Readable(i) || (IsHead(s, i) && Settled(s, i))
  }

  lemma {:induction false} AckKeeps<E>(s: Stream<E>, i: nat, count: nat)
    requires StreamInv(s, count) && MayAck(s, i)
    ensures StreamInv(s.Ack(i), count)
  {
    hide AcksInOrder, CallsInOrder;
    AckKeepsOrder(s, i);
    AckKeepsCalls(s, i);
  }

  lemma {:induction false} AckKeepsOrder<E>(s: Stream<E>, i: nat)
    requires Accounted(s) && AcksInOrder(s) && MayAck(s, i)
    ensures AcksInOrder(s.Ack(i))
  {
    hide Accounted;
  }

  lemma {:induction false} AckKeepsCalls<E>(s: Stream<E>, i: nat)
    requires CallsInOrder(s) && MayAck(s, i)
    ensures CallsInOrder(s.Ack(i))
  {
  }

  lemma {:induction false} CallHeadKeeps<E>(s: Stream<E>, i: nat, how: Handling, count: nat)
    requires StreamInv(s, count) && IsHead(s, i) && i in s.delivered
    ensures var t := s.Call(i, how); StreamInv(t, count) && IsHead(t, i) && (!how.Systemic? ==> Settled(t, i))
  {
    hide Accounted, AcksInOrder;
    var t := s.Call(i, how);
    assert t.calls[|s.calls|] == Taken(i, how);
    CallInOrder(s, i, how);
    assert Accounted(t) by { CallKeepsRest(s, i, how); }
    assert AcksInOrder(t) by { CallKeepsRest(s, i, how); }
  }

  lemma {:induction false} CallKeepsRest<E>(s: Stream<E>, i: nat, how: Handling)
    requires Accounted(s) && AcksInOrder(s)
    ensures Accounted(s.Call(i, how)) && AcksInOrder(s.Call(i, how))
  {
  }

  lemma {:induction false} CallInOrder<E>(s: Stream<E>, i: nat, how: Handling)
    requires CallsInOrder(s) && i in s.delivered && IsHead(s, i)
    ensures CallsInOrder(s.Call(i, how))
  {
    var t := s.Call(i, how);
    assert NonDecreasing(t.calls);
    forall j | j in t.acked && t.Readable(j) ensures Settled(t, j) {
      var a :| 0 <= a < |s.calls| && s.calls[a].entry == j && !s.calls[a].how.Systemic?;
      assert t.calls[a] == s.calls[a];
    }
  }

  lemma {:induction false} CardinalityOfIds(ids: seq<nat>)
    ensures |set a | 0 <= a < |ids| :: ids[a]| <= |ids|
  {
    if ids != [] {
      var front := ids[..|ids| - 1];
      CardinalityOfIds(front);
      assert (set a | 0 <= a < |ids| :: ids[a]) == (set a | 0 <= a < |front| :: front[a]) + {ids[|ids| - 1]};
    }
  }

  /** A read of new entries is offered the next ones still there: as many as it asked for, or all there are. */
  lemma {:induction false} OffersNext<E>(s: Stream<E>, from: nat, limit: nat)
    ensures var ids := s.Fresh(from, limit);
            && (forall i <- ids :: i !in s.trimmed)
            && (forall i: nat :: from <= i < |s.log| && i !in s.trimmed && i !in ids ==>
                  |ids| == limit && forall j <- ids :: j < i)
    decreases |s.log| - from
  {
    if limit > 0 && from < |s.log| {
      if from in s.trimmed {
        OffersNext(s, from + 1, limit);
      } else {
        OffersNext(s, from + 1, limit - 1);
      }
    }
  }

  lemma {:induction false} DeliverPassesNothing<E>(s: Stream<E>, count: nat)
    requires Accounted(s)
    ensures var t := s.Deliver(count); forall i: nat :: i < t.next ==> i in t.delivered || i in t.trimmed
  {
    var t, ids := s.Deliver(count), s.Offer(count);
    OffersNext(s, s.next, count);
    forall i: nat | i < t.next ensures i in t.delivered || i in t.trimmed {
      if i >= s.next && i !in s.trimmed {
        assert ids[|ids| - 1] in ids;
      }
    }
  }

  lemma {:induction false} DeliverKeeps<E>(s: Stream<E>, count: nat)
    requires StreamInv(s, count) && s.pending == {}
    ensures StreamInv(s.Deliver(count), count)
  {
    hide Accounted, AcksInOrder, CallsInOrder;
    DeliverAccounts(s, count);
    DeliverKeepsOrder(s, count);
  }

  lemma {:induction false} DeliverAccounts<E>(s: Stream<E>, count: nat)
    requires Accounted(s) && s.pending == {}
    ensures Accounted(s.Deliver(count)) && |s.Deliver(count).pending| <= count
  {
    var ids, t := s.Offer(count), s.Deliver(count);
    DeliverPassesNothing(s, count);
    CardinalityOfIds(ids);
    assert t.pending == set a | 0 <= a < |ids| :: ids[a];
    assert forall a :: 0 <= a < |ids| ==> ids[a] < t.next;
  }

  lemma {:induction false} DeliverKeepsOrder<E>(s: Stream<E>, count: nat)
    requires Accounted(s) && CallsInOrder(s)
    requires s.pending == {}
    ensures AcksInOrder(s.Deliver(count)) && CallsInOrder(s.Deliver(count))
  {
    var t := s.Deliver(count);
    assert forall j <- t.pending :: s.next <= j;
    assert forall i <- s.delivered :: i < s.next;
  }

  // ----- what a read hands over -----

  /** What a batch must be for the loop to be safe: readable pending entries, each stream's in order, none missing. */
  ghost predicate IsBatch<E>(server: Server<E>, events: seq<Ref>) {
    && (forall r <- events :: r.stream < |server| && r.entry in server[r.stream].pending
          && server[r.stream].Readable(r.entry))
    && InOrder(events)
    && (forall k, i :: 0 <= k < |server| && i in server[k].pending && server[k].Readable(i) ==> Ref(k, i) in events)
  }

  predicate InOrder(events: seq<Ref>) {
    forall a, b :: 0 <= a < b < |events| && events[a].stream == events[b].stream ==> events[a].entry < events[b].entry
  }

  /** Acknowledging unreadable entries: nothing readable leaves the pending list, nothing enters it. */
  ghost predicate OnlyDrops<E>(before: Server<E>, after: Server<E>) {
    && |after| == |before|
    && forall k :: 0 <= k < |before| ==>
         && after[k].log == before[k].log && after[k].trimmed == before[k].trimmed
         && after[k].delivered == before[k].delivered
         && after[k].pending <= before[k].pending
         && forall i <- before[k].pending :: before[k].Readable(i) ==> i in after[k].pending
  }

  predicate RefReadable<E>(server: Server<E>, r: Ref) {
    r.stream < |server| && server[r.stream].Readable(r.entry)
  }

  function ReadableOf<E>(server: Server<E>, reply: seq<Ref>): (events: seq<Ref>)
    ensures forall r <- events :: r in reply && RefReadable(server, r)
    ensures forall r <- reply :: RefReadable(server, r) ==> r in events
  {
    if reply == [] then []
    else
      var rest := ReadableOf(server, reply[1..]);
      assert reply == [reply[0]] + reply[1..];
      if RefReadable(server, reply[0]) then [reply[0]] + rest else rest
  }

  lemma {:induction false} ReadableInOrder<E>(server: Server<E>, reply: seq<Ref>)
    requires InOrder(reply)
    ensures InOrder(ReadableOf(server, reply))
  {
    hide InOrder, RefReadable;
    if reply != [] {
      InOrderSplits(reply);
      ReadableInOrder(server, reply[1..]);
      InOrderJoins(reply[0], ReadableOf(server, reply[1..]));
    } else {
      assert InOrder([]) by { NothingInOrder(); }
    }
  }

  lemma {:induction false} NothingInOrder()
    ensures InOrder([])
  {
  }

  lemma {:induction false} InOrderSplits(reply: seq<Ref>)
    requires InOrder(reply) && reply != []
    ensures InOrder(reply[1..])
    ensures forall q <- reply[1..] :: q.stream == reply[0].stream ==> reply[0].entry < q.entry
  {
  }

  lemma {:induction false} InOrderJoins(r: Ref, rest: seq<Ref>)
    requires InOrder(rest) && forall q <- rest :: q.stream == r.stream ==> r.entry < q.entry
    ensures InOrder([r] + rest)
  {
  }

  lemma {:induction false} InvUpdate<E>(server: Server<E>, k: nat, s: Stream<E>, count: nat)
    requires Inv(server, count) && k < |server| && StreamInv(s, count)
    ensures Inv(server[k := s], count)
  {
  }

  lemma {:induction false} SiftKeeps<E>(server: Server<E>, reply: seq<Ref>, luck: Luck, count: nat)
    requires Inv(server, count)
    requires forall r <- reply :: r.stream < |server|
    ensures Inv(Sift(server, reply, luck).server, count)
    decreases |reply|
  {
    if reply != [] {
      var r := reply[0];
      if server[r.stream].Readable(r.entry) {
        SiftKeeps(server, reply[1..], luck, count);
      } else {
        AckKeeps(server[r.stream], r.entry, count);
        InvUpdate(server, r.stream, server[r.stream].Ack(r.entry), count);
        var dropped := Try(server, AckRef(server, r), luck);
        if !dropped.raised {
          SiftKeeps(dropped.state, reply[1..], dropped.luck, count);
        }
      }
    }
  }

  lemma {:induction false} SiftOnlyDrops<E>(server: Server<E>, reply: seq<Ref>, luck: Luck)
    requires forall r <- reply :: r.stream < |server|
    ensures OnlyDrops(server, Sift(server, reply, luck).server)
    decreases |reply|
  {
    if reply != [] {
      var r := reply[0];
      if server[r.stream].Readable(r.entry) {
        SiftOnlyDrops(server, reply[1..], luck);
      } else {
        var dropped := Try(server, AckRef(server, r), luck);
        if !dropped.raised {
          SiftOnlyDrops(dropped.state, reply[1..], dropped.luck);
          var after := Sift(dropped.state, reply[1..], dropped.luck).server;
          assert OnlyDrops(server, dropped.state);
          DropsCompose(server, dropped.state, after);
        }
      }
    }
  }

  lemma {:induction false} DropsCompose<E>(a: Server<E>, b: Server<E>, c: Server<E>)
    requires OnlyDrops(a, b) && OnlyDrops(b, c)
    ensures OnlyDrops(a, c)
  {
    forall k | 0 <= k < |a|
      ensures forall i <- a[k].pending :: a[k].Readable(i) ==> i in c[k].pending
    {
      assert forall i :: a[k].Readable(i) == b[k].Readable(i);
    }
  }

  lemma {:induction false} ReadableOfSame<E>(s: Server<E>, t: Server<E>, reply: seq<Ref>)
    requires |s| == |t| && forall k :: 0 <= k < |s| ==> s[k].log == t[k].log && s[k].trimmed == t[k].trimmed
    ensures ReadableOf(s, reply) == ReadableOf(t, reply)
  {
    if reply != [] {
      ReadableOfSame(s, t, reply[1..]);
      assert RefReadable(s, reply[0]) == RefReadable(t, reply[0]);
    }
  }

  /** A sift that ends returns the readable entries of the reply and leaves no unreadable one of them pending. */
  lemma {:induction false} SiftReturns<E>(server: Server<E>, reply: seq<Ref>, luck: Luck)
    requires forall r <- reply :: r.stream < |server|
    requires Sift(server, reply, luck).events.Some?
    ensures Sift(server, reply, luck).events.value == ReadableOf(server, reply)
    ensures |Sift(server, reply, luck).server| == |server|
    ensures forall k, i :: 0 <= k < |server| && i in Sift(server, reply, luck).server[k].pending
              ==> i in server[k].pending
    ensures forall r <- reply :: RefReadable(server, r)
              || r.entry !in Sift(server, reply, luck).server[r.stream].pending
    decreases |reply|
  {
    if reply != [] {
      var r := reply[0];
      assert reply == [r] + reply[1..];
      if server[r.stream].Readable(r.entry) {
        SiftReturns(server, reply[1..], luck);
      } else {
        var next := AckRef(server, r);
        var dropped := Try(server, next, luck);
        SiftReturns(next, reply[1..], dropped.luck);
        ReadableOfSame(server, next, reply[1..]);
        assert forall q <- reply[1..] :: RefReadable(next, q) == RefReadable(server, q);
      }
    }
  }

  // ----- reading keeps the contract and returns a proper batch -----

  ghost predicate CoversFrom<E>(server: Server<E>, reply: seq<Ref>, k: nat) {
    && (forall r <- reply :: k <= r.stream < |server|)
    && InOrder(reply)
    && (forall m, i :: k <= m < |server| && i in server[m].pending ==> Ref(m, i) in reply)
  }

  /** The whole pending list fits in one reply. */
  ghost predicate Listed<E>(s: Stream<E>, count: nat) {
    |InIdOrder(s.pending, 0, s.next)| <= count && forall i <- s.pending :: i in InIdOrder(s.pending, 0, s.next)
  }

  lemma {:induction false} PendingListed<E>(s: Stream<E>, count: nat)
    requires StreamInv(s, count)
    ensures Listed(s, count)
  {
    InIdOrderSize(s.pending, 0, s.next);
    InIdOrderComplete(s.pending, 0, s.next);
    assert forall i <- s.pending :: i in s.delivered;
  }

  lemma {:induction false} PendingCovers<E>(server: Server<E>, count: nat, k: nat)
    requires forall m :: 0 <= m < |server| ==> Listed(server[m], count)
    ensures CoversFrom(server, PendingReply(server, count, k), k)
    decreases |server| - k
  {
    hide CoversFrom;
    if k < |server| {
      PendingCovers(server, count, k + 1);
      assert Listed(server[k], count);
      var ids := InIdOrder(server[k].pending, 0, server[k].next);
      CoversOne(server, Tagged(k, ids), PendingReply(server, count, k + 1), k, ids);
    } else {
      CoversNone(server, k);
    }
  }

  lemma {:induction false} CoversNone<E>(server: Server<E>, k: nat)
    requires k >= |server|
    ensures CoversFrom(server, [], k)
  {
  }

  lemma {:induction false} ReplyIsPending<E>(server: Server<E>, count: nat, k: nat)
    ensures forall r <- PendingReply(server, count, k) :: r.stream < |server| && r.entry in server[r.stream].pending
    decreases |server| - k
  {
    if k < |server| {
      ReplyIsPending(server, count, k + 1);
    }
  }

  lemma {:induction false} CoversOne<E>(server: Server<E>, here: seq<Ref>, rest: seq<Ref>, k: nat, ids: seq<nat>)
    requires k < |server| && here == Tagged(k, ids) && Ascending(ids) && CoversFrom(server, rest, k + 1)
    requires forall i <- server[k].pending :: i in ids
    ensures CoversFrom(server, here + rest, k)
  {
    var reply := here + rest;
    assert forall r <- here :: r.stream == k;
    assert forall a :: 0 <= a < |rest| ==> rest[a] in rest;
    forall m, i | k <= m < |server| && i in server[m].pending ensures Ref(m, i) in reply {
      if m == k {
        var a :| 0 <= a < |ids| && ids[a] == i;
        assert here[a] == Ref(m, i);
      } else {
        assert Ref(m, i) in rest;
      }
    }
  }

  /** When nothing is pending, the reply of new entries is exactly what becomes pending. */
  lemma {:induction false} FreshCovers<E>(server: Server<E>, count: nat, k: nat)
    requires forall m :: 0 <= m < |server| ==> server[m].pending == {}
    ensures CoversFrom(DeliverAll(server, count), FreshReply(server, count, k), k)
    decreases |server| - k
  {
    if k < |server| {
      FreshCovers(server, count, k + 1);
      var ids := server[k].Offer(count);
      CoversOne(DeliverAll(server, count), Tagged(k, ids), FreshReply(server, count, k + 1), k, ids);
    }
  }

  /** Sifting a covering reply leaves exactly the readable entries pending, and returns them as a batch. */
  lemma {:induction false} SiftBatch<E>(server: Server<E>, reply: seq<Ref>, luck: Luck)
    requires CoversFrom(server, reply, 0)
    requires forall r <- reply :: r.entry in server[r.stream].pending
    requires Sift(server, reply, luck).events.Some?
    ensures |Sift(server, reply, luck).server| == |server|
    ensures IsBatch(Sift(server, reply, luck).server, Sift(server, reply, luck).events.value)
    ensures forall k, i :: 0 <= k < |server| && i in Sift(server, reply, luck).server[k].pending ==>
              Ref(k, i) in Sift(server, reply, luck).events.value
  {
    SiftOnlyDrops(server, reply, luck);
    SiftReturns(server, reply, luck);
    ReadableInOrder(server, reply);
    var after, events := Sift(server, reply, luck).server, Sift(server, reply, luck).events.value;
    forall k, i | 0 <= k < |server| && i in after[k].pending
      ensures Ref(k, i) in events
    {
      assert i in server[k].pending;
      assert Ref(k, i) in reply;
    }
  }

  /** The groups' bookkeeping is the same; only group existence may differ. */
  ghost predicate SameEntries<E>(s: Server<E>, t: Server<E>) {
    |s| == |t| && forall k :: 0 <= k < |s| ==> t[k].(hasGroup := s[k].hasGroup) == s[k]
  }

  lemma {:induction false} EnsureSame<E>(server: Server<E>, ensured: set<nat>, k: nat, luck: Luck)
    ensures SameEntries(server, EnsureFrom(server, ensured, k, luck).0.state)
    decreases |server| - k
  {
    if k < |server| {
      if k in ensured {
        EnsureSame(server, ensured, k + 1, luck);
      } else {
        var made := Try(server, server[k := server[k].(hasGroup := true)], luck);
        if !made.raised {
          EnsureSame(made.state, ensured + {k}, k + 1, made.luck);
        }
      }
    }
  }

  lemma {:induction false} SameKeeps<E>(s: Server<E>, t: Server<E>, count: nat)
    requires SameEntries(s, t) && Inv(s, count)
    ensures Inv(t, count)
  {
    forall k | 0 <= k < |t| ensures StreamInv(t[k], count) {
      assert StreamInv(s[k], count);
      assert forall i: nat :: t[k].Readable(i) == s[k].Readable(i);
    }
  }

  /** No stream has a readable entry pending. */
  ghost predicate Drained<E>(server: Server<E>) {
    forall k, i :: 0 <= k < |server| && i in server[k].pending ==> !server[k].Readable(i)
  }

  /** The new-entries half of a read, entered only when nothing at all is pending. */
  lemma {:induction false} ReadNewKeeps<E>(server: Server<E>, known: set<nat>, count: nat, luck: Luck)
    requires Inv(server, count) && forall k :: 0 <= k < |server| ==> server[k].pending == {}
    ensures var read := ReadNewSpec(server, known, count, luck);
            Inv(read.server, count) && (read.events.Some? ==> IsBatch(read.server, read.events.value))
  {
    forall k | 0 <= k < |server| ensures StreamInv(server[k].Deliver(count), count) {
      assert StreamInv(server[k], count);
      DeliverKeeps(server[k], count);
    }
    var all := DeliverAll(server, count);
    var given := Try(server, all, luck);
    if !given.raised {
      FreshReplyInRange(server, count, 0);
      FreshCovers(server, count, 0);
      FreshIsPending(server, count, 0);
      var reply := FreshReply(server, count);
      SiftKeeps(all, reply, given.luck, count);
      if Sift(all, reply, given.luck).events.Some? {
        SiftBatch(all, reply, given.luck);
      }
    }
  }

  lemma {:induction false} FreshIsPending<E>(server: Server<E>, count: nat, k: nat)
    ensures forall r <- FreshReply(server, count,
                                   k) :: r.stream < |server| && r.entry in server[r.stream].Deliver(count).pending
    decreases |server| - k
  {
    if k < |server| {
      FreshIsPending(server, count, k + 1);
    }
  }

  /** A read keeps the contract, and a read that returns hands over a batch the loop can process safely. */
  lemma {:induction false} ReadKeeps<E>(server: Server<E>, ensured: set<nat>, count: nat, luck: Luck)
    requires Inv(server, count)
    ensures var read := ReadSpec(server, ensured, count, luck);
            Inv(read.server, count) && (read.events.Some? ==> IsBatch(read.server, read.events.value))
  {
    EnsureSame(server, ensured, 0, luck);
    var (made, known) := EnsureFrom(server, ensured, 0, luck);
    var ready := made.state;
    SameKeeps(server, ready, count);
    if !made.raised && made.luck.commands > 0 {
      DrainStep(ready, known, count, Try(ready, ready, made.luck).luck);
    }
  }

  lemma {:induction false} DrainStep<E>(ready: Server<E>, known: set<nat>, count: nat, luck: Luck)
    requires Inv(ready, count)
    ensures forall r <- PendingReply(ready, count) :: r.stream < |ready|
    ensures var sifted := Sift(ready, PendingReply(ready, count), luck);
            && Inv(sifted.server, count) && OnlyDrops(ready, sifted.server)
            && (sifted.events.Some? ==>
                  && IsBatch(sifted.server, sifted.events.value)
                  && (sifted.events.value == [] ==>
                        var read := ReadNewSpec(sifted.server, known, count, sifted.luck);
                        && Drained(ready)
                        && Inv(read.server, count)
                        && (read.events.Some? ==> IsBatch(read.server, read.events.value))))
  {
    forall k | 0 <= k < |ready| ensures Listed(ready[k], count) {
      assert StreamInv(ready[k], count);
      PendingListed(ready[k], count);
    }
    PendingCovers(ready, count, 0);
    ReplyIsPending(ready, count, 0);
    var reply := PendingReply(ready, count);
    SiftKeeps(ready, reply, luck, count);
    SiftOnlyDrops(ready, reply, luck);
    var sifted := Sift(ready, reply, luck);
    if sifted.events.Some? {
      SiftBatch(ready, reply, luck);
      if sifted.events.value == [] {
        ReadNewKeeps(sifted.server, known, count, sifted.luck);
      }
    }
  }

  /** New entries are asked for only when no readable entry is pending on any stream. */
  lemma {:induction false} NewOnlyWhenDrained<E>(server: Server<E>, ensured: set<nat>, count: nat, luck: Luck, k: nat)
    requires Inv(server, count) && k < |server|
    ensures |ReadSpec(server, ensured, count, luck).server| == |server|
    ensures ReadSpec(server, ensured, count, luck).server[k].delivered != server[k].delivered ==> Drained(server)
  {
    ReadInRange(server, ensured, count, luck);
    EnsureSame(server, ensured, 0, luck);
    var (made, known) := EnsureFrom(server, ensured, 0, luck);
    SameKeeps(server, made.state, count);
    assert made.state[k].delivered == server[k].delivered;
    if !made.raised && made.luck.commands > 0 {
      DrainStep(made.state, known, count, Try(made.state, made.state, made.luck).luck);
      SameDrained(server, made.state);
    }
  }

  lemma {:induction false} SameDrained<E>(s: Server<E>, t: Server<E>)
    requires SameEntries(s, t)
    ensures Drained(s) == Drained(t)
  {
    forall k | 0 <= k < |s|
      ensures t[k].pending == s[k].pending && forall i: nat :: t[k].Readable(i) == s[k].Readable(i)
    {
    }
  }

  /**
   After a failure left something readable pending, the next read that succeeds hands over exactly
   the readable pending entries, each stream's in order, before anything new.
   */
  lemma {:induction false} RedeliversFirst<E>(server: Server<E>, ensured: set<nat>, count: nat, luck: Luck)
    requires Inv(server, count) && !Drained(server)
    requires ReadSpec(server, ensured, count, luck).events.Some?
    ensures IsBatch(server, ReadSpec(server, ensured, count, luck).events.value)
  {
    EnsureSame(server, ensured, 0, luck);
    var (made, known) := EnsureFrom(server, ensured, 0, luck);
    var ready := made.state;
    SameKeeps(server, ready, count);
    SameDrained(server, ready);
    var asked := Try(ready, ready, made.luck);
    DrainStep(ready, known, count, asked.luck);
    var sifted := Sift(ready, PendingReply(ready, count), asked.luck);
    forall k, i | 0 <= k < |server| && i in server[k].pending && server[k].Readable(i)
      ensures Ref(k, i) in sifted.events.value
    {
      assert ready[k].Readable(i) && i in ready[k].pending;
      assert sifted.server[k].Readable(i);
    }
    forall r | r in sifted.events.value
      ensures r.stream < |server| && r.entry in server[r.stream].pending && server[r.stream].Readable(r.entry)
    {
      assert ready[r.stream].Readable(r.entry);
    }
  }

  // ----- processing keeps the contract -----

  /** The first event of a batch is the first readable pending entry of its stream. */
  lemma {:induction false} BatchHead<E>(server: Server<E>, events: seq<Ref>)
    requires IsBatch(server, events) && events != []
    ensures IsHead(server[events[0].stream], events[0].entry)
  {
    var r := events[0];
    forall j | j in server[r.stream].pending && server[r.stream].Readable(j) ensures r.entry <= j {
      var b :| 0 <= b < |events| && events[b] == Ref(r.stream, j);
    }
  }

  lemma {:induction false} BatchTail<E>(server: Server<E>, events: seq<Ref>, how: Handling)
    requires IsBatch(server, events) && events != []
    ensures var r := events[0];
            IsBatch(AckRef(server[r.stream := server[r.stream].Call(r.entry, how)], r), events[1..])
  {
    var r := events[0];
    var after := AckRef(server[r.stream := server[r.stream].Call(r.entry, how)], r);
    forall q | q in events[1..]
      ensures q.stream < |after| && q.entry in after[q.stream].pending && after[q.stream].Readable(q.entry)
    {
      assert q in events;
      var b :| 1 <= b < |events| && events[b] == q;
    }
    forall k, i | 0 <= k < |after| && i in after[k].pending && after[k].Readable(i)
      ensures Ref(k, i) in events[1..]
    {
      assert Ref(k, i) in events;
      assert Ref(k, i) != r;
    }
  }

  lemma {:induction false} ProcessKeeps<E>(server: Server<E>, events: seq<Ref>, outcomes: seq<Handling>, luck: Luck,
                                           count: nat)
    requires Inv(server, count) && IsBatch(server, events)
    ensures Inv(ProcessSpec(server, events, outcomes, luck), count)
    decreases |events|
  {
    if events != [] && outcomes != [] {
      var r := events[0];
      BatchHead(server, events);
      CallHeadKeeps(server[r.stream], r.entry, outcomes[0], count);
      var called := server[r.stream := server[r.stream].Call(r.entry, outcomes[0])];
      InvUpdate(server, r.stream, server[r.stream].Call(r.entry, outcomes[0]), count);
      if !outcomes[0].Systemic? {
        AckKeeps(called[r.stream], r.entry, count);
        InvUpdate(called, r.stream, called[r.stream].Ack(r.entry), count);
        BatchTail(server, events, outcomes[0]);
        var acked := Try(called, AckRef(called, r), luck);
        if !acked.raised {
          ProcessKeeps(acked.state, events[1..], outcomes[1..], acked.luck, count);
        }
      }
    }
  }

  /** One cycle keeps the contract, wherever it fails or crashes. */
  lemma {:induction false} PollKeeps<E>(w: World<E>, count: nat, luck: Luck, outcomes: seq<Handling>)
    requires Inv(w.server, count)
    ensures Inv(PollSpec(w, count, luck, outcomes).server, count)
  {
    ReadKeeps(w.server, w.ensured, count, luck);
    ReadInRange(w.server, w.ensured, count, luck);
    var read := ReadSpec(w.server, w.ensured, count, luck);
    if read.events.Some? {
      ProcessKeeps(read.server, read.events.value, outcomes, read.luck, count);
    }
  }

  // ----- exactly what one cycle attempts and acknowledges -----

  /** The `a`-th event of the batch is attempted: nothing before it failed systemically, nor its acknowledgement. */
  predicate Attempted(outcomes: seq<Handling>, luck: Luck, a: nat) {
    a < |outcomes| && a <= luck.commands && forall b :: 0 <= b < a ==> !outcomes[b].Systemic?
  }

  /** It is acknowledged: it is attempted and did not fail systemically, and the command took effect. */
  predicate Acknowledged(outcomes: seq<Handling>, luck: Luck, a: nat) {
    Attempted(outcomes, luck, a) && !outcomes[a].Systemic? && (a < luck.commands || luck.lostReply)
  }

  /** The attempts at one stream's entries, among the first `n` of the batch. */
  function AttemptsOn(events: seq<Ref>, outcomes: seq<Handling>, n: nat, k: nat): seq<Taken>
    requires n <= |events| && n <= |outcomes|
  {
    if n == 0 then []
    else
      (if events[0].stream == k then [Taken(events[0].entry, outcomes[0])] else [])
      + AttemptsOn(events[1..], outcomes[1..], n - 1, k)
  }

  /** The first `n` events of the batch are those attempted. */
  ghost predicate AttemptsFirst(events: seq<Ref>, outcomes: seq<Handling>, luck: Luck, n: nat) {
    n <= |events| && n <= |outcomes| && forall a :: 0 <= a < |events| ==> (Attempted(outcomes, luck, a) <==> a < n)
  }

  /** What a cycle does to the streams after its read. */
  ghost predicate CycleEffect<E>(before: Server<E>, after: Server<E>, events: seq<Ref>, outcomes: seq<Handling>,
                                 luck: Luck, n: nat)
    requires forall r <- events :: r.stream < |before|
    requires |after| == |before| && n <= |events| && n <= |outcomes|
  {
    && (forall k :: 0 <= k < |before| ==>
          && after[k].calls == before[k].calls + AttemptsOn(events, outcomes, n, k)
          && after[k].log == before[k].log && after[k].delivered == before[k].delivered
          && after[k].trimmed == before[k].trimmed && after[k].next == before[k].next)
    && (forall a :: 0 <= a < |events| ==>
          && (events[a].entry in after[events[a].stream].acked <==> Acknowledged(outcomes, luck, a))
          && (events[a].entry in after[events[a].stream].pending <==> !Acknowledged(outcomes, luck, a)))
    && (forall k, i: nat :: 0 <= k < |before| && Ref(k, i) !in events ==>
          && (i in after[k].acked <==> i in before[k].acked) && (i in after[k].pending <==> i in before[k].pending))
  }

  lemma {:induction false} AttemptedShift(outcomes: seq<Handling>, luck: Luck, a: nat)
    requires outcomes != [] && !outcomes[0].Systemic? && luck.commands > 0
    ensures var rest := luck.(commands := luck.commands - 1);
            && (Attempted(outcomes, luck, a + 1) <==> Attempted(outcomes[1..], rest, a))
            && (Acknowledged(outcomes, luck, a + 1) <==> Acknowledged(outcomes[1..], rest, a))
  {
    assert forall b :: 0 <= b < |outcomes| - 1 ==> outcomes[1..][b] == outcomes[b + 1];
    if Attempted(outcomes[1..], luck.(commands := luck.commands - 1), a) {
      forall b | 0 <= b < a + 1 ensures !outcomes[b].Systemic? {
        assert b > 0 ==> !outcomes[1..][b - 1].Systemic?;
      }
    }
  }

  /** The batch's entries are pending, and no two are the same. */
  ghost predicate Waiting<E>(server: Server<E>, events: seq<Ref>) {
    && (forall r <- events :: r.stream < |server| && r.entry in server[r.stream].pending
          && r.entry !in server[r.stream].acked)
    && (forall a, b :: 0 <= a < b < |events| ==> events[a] != events[b])
  }

  lemma {:induction false} ProcessEffect<E>(server: Server<E>, events: seq<Ref>, outcomes: seq<Handling>, luck: Luck)
      returns (n: nat)
    requires Waiting(server, events)
    ensures n <= |events| && n <= |outcomes| && AttemptsFirst(events, outcomes, luck, n)
    ensures CycleEffect(server, ProcessSpec(server, events, outcomes, luck), events, outcomes, luck, n)
    decreases |events|
  {
    hide Waiting, AttemptsFirst, CycleEffect, AttemptsOn, Attempted, Acknowledged, ProcessSpec;
    InReach(server, events);
    if events == [] || outcomes == [] {
      n := 0;
      NoAttempt(server, events, outcomes, luck);
    } else {
      var r := events[0];
      var called := server[r.stream := server[r.stream].Call(r.entry, outcomes[0])];
      if outcomes[0].Systemic? || luck.commands == 0 {
        n := 1;
        OneAttempt(server, events, outcomes, luck);
      } else {
        var acked := AckRef(called, r);
        var rest := luck.(commands := luck.commands - 1);
        StillWaiting(server, events, outcomes[0]);
        InReach(acked, events[1..]);
        var m := ProcessEffect(acked, events[1..], outcomes[1..], rest);
        n := m + 1;
        FirstThenRest(server, events, outcomes, luck, m);
      }
    }
  }

  lemma {:induction false} InReach<E>(server: Server<E>, events: seq<Ref>)
    requires Waiting(server, events)
    ensures forall r <- events :: r.stream < |server|
  {
  }

  lemma {:induction false} NoAttempt<E>(server: Server<E>, events: seq<Ref>, outcomes: seq<Handling>, luck: Luck)
    requires Waiting(server, events) && (events == [] || outcomes == [])
    ensures AttemptsFirst(events, outcomes, luck, 0)
    ensures CycleEffect(server, ProcessSpec(server, events, outcomes, luck), events, outcomes, luck, 0)
  {
  }

  lemma {:induction false} StillWaiting<E>(server: Server<E>, events: seq<Ref>, how: Handling)
    requires Waiting(server, events) && events != []
    ensures var r := events[0]; Waiting(AckRef(server[r.stream := server[r.stream].Call(r.entry, how)], r), events[1..])
  {
  }

  lemma {:induction false} OneAttempt<E>(server: Server<E>, events: seq<Ref>, outcomes: seq<Handling>, luck: Luck)
    requires Waiting(server, events) && events != [] && outcomes != []
    requires outcomes[0].Systemic? || luck.commands == 0
    ensures AttemptsFirst(events, outcomes, luck, 1)
    ensures CycleEffect(server, ProcessSpec(server, events, outcomes, luck), events, outcomes, luck, 1)
  {
    StopsAtOnce(server, events, outcomes, luck);
    OneAttemptOn(events, outcomes);
    hide AttemptsOn, Attempted, Acknowledged, ProcessSpec;
    var r, after := events[0], ProcessSpec(server, events, outcomes, luck);
    forall a | 0 <= a < |events|
      ensures events[a].entry in after[events[a].stream].acked <==> Acknowledged(outcomes, luck, a)
      ensures events[a].entry in after[events[a].stream].pending <==> !Acknowledged(outcomes, luck, a)
    {
      assert a > 0 ==> events[a] != r;
    }
    forall k, i: nat | 0 <= k < |server| && Ref(k, i) !in events
      ensures (i in after[k].acked <==> i in server[k].acked) && (i in after[k].pending <==> i in server[k].pending)
    {
      assert Ref(k, i) != r;
    }
  }

  /** Where the loop ends with its first event. */
  lemma {:induction false} StopsAtOnce<E>(server: Server<E>, events: seq<Ref>, outcomes: seq<Handling>, luck: Luck)
    requires Waiting(server, events) && events != [] && outcomes != []
    requires outcomes[0].Systemic? || luck.commands == 0
    ensures var r, lost := events[0], !outcomes[0].Systemic? && luck.lostReply;
            var called := server[r.stream].Call(r.entry, outcomes[0]);
            && ProcessSpec(server, events, outcomes, luck)
               == server[r.stream := if lost then called.Ack(r.entry) else called]
            && (forall a :: Attempted(outcomes, luck, a) <==> a == 0)
            && (forall a :: Acknowledged(outcomes, luck, a) <==> a == 0 && lost)
  {
    var r := events[0];
    var called := server[r.stream := server[r.stream].Call(r.entry, outcomes[0])];
    assert AckRef(called, r) == server[r.stream := called[r.stream].Ack(r.entry)];
  }

  lemma {:induction false} OneAttemptOn(events: seq<Ref>, outcomes: seq<Handling>)
    requires events != [] && outcomes != []
    ensures forall k :: AttemptsOn(events, outcomes, 1, k)
                        == if events[0].stream == k then [Taken(events[0].entry, outcomes[0])] else []
  {
    forall k ensures AttemptsOn(events, outcomes, 1, k)
                     == if events[0].stream == k then [Taken(events[0].entry, outcomes[0])] else []
    {
      assert AttemptsOn(events[1..], outcomes[1..], 0, k) == [];
    }
  }

  lemma {:induction false} FirstThenRest<E>(server: Server<E>, events: seq<Ref>, outcomes: seq<Handling>, luck: Luck,
                                            m: nat)
    requires Waiting(server, events) && events != [] && outcomes != [] && !outcomes[0].Systemic? && luck.commands > 0
    requires m <= |events| - 1 && m <= |outcomes| - 1
    requires var rest := luck.(commands := luck.commands - 1);
             var r := events[0];
             var acked := AckRef(server[r.stream := server[r.stream].Call(r.entry, outcomes[0])], r);
             && AttemptsFirst(events[1..], outcomes[1..], rest, m)
             && (forall q <- events[1..] :: q.stream < |acked|)
             && CycleEffect(acked, ProcessSpec(acked, events[1..], outcomes[1..], rest), events[1..], outcomes[1..],
                            rest, m)
    ensures AttemptsFirst(events, outcomes, luck, m + 1)
    ensures CycleEffect(server, ProcessSpec(server, events, outcomes, luck), events, outcomes, luck, m + 1)
  {
    hide Attempted, Acknowledged, AttemptsOn, ProcessSpec;
    var r := events[0];
    var rest := luck.(commands := luck.commands - 1);
    var acked := AckRef(server[r.stream := server[r.stream].Call(r.entry, outcomes[0])], r);
    var after := ProcessSpec(acked, events[1..], outcomes[1..], rest);
    Unfolded(server, events, outcomes, luck);
    forall a: nat ensures Attempted(outcomes, luck, a + 1) <==> Attempted(outcomes[1..], rest, a)
                  ensures Acknowledged(outcomes, luck, a + 1) <==> Acknowledged(outcomes[1..], rest, a)
    {
      AttemptedShift(outcomes, luck, a);
    }
    forall a | 0 <= a < |events|
      ensures Attempted(outcomes, luck, a) <==> a < m + 1
      ensures events[a].entry in after[events[a].stream].acked <==> Acknowledged(outcomes, luck, a)
      ensures events[a].entry in after[events[a].stream].pending <==> !Acknowledged(outcomes, luck, a)
    {
      if a == 0 {
        assert r !in events[1..] && Ref(r.stream, r.entry) == r;
      } else {
        assert events[a] == events[1..][a - 1];
        AttemptedShift(outcomes, luck, a - 1);
      }
    }
    forall k, i: nat | 0 <= k < |server| && Ref(k, i) !in events
      ensures (i in after[k].acked <==> i in server[k].acked) && (i in after[k].pending <==> i in server[k].pending)
    {
      assert Ref(k, i) !in events[1..];
    }
  }

  lemma {:induction false} Unfolded<E>(server: Server<E>, events: seq<Ref>, outcomes: seq<Handling>, luck: Luck)
    requires Waiting(server, events) && events != [] && outcomes != [] && !outcomes[0].Systemic? && luck.commands > 0
    ensures var r := events[0];
            var acked := AckRef(server[r.stream := server[r.stream].Call(r.entry, outcomes[0])], r);
            && (forall q <- events[1..] :: q.stream < |acked|)
            && ProcessSpec(server, events, outcomes, luck)
               == ProcessSpec(acked, events[1..], outcomes[1..], luck.(commands := luck.commands - 1))
    ensures Attempted(outcomes, luck, 0) && Acknowledged(outcomes, luck, 0)
    ensures forall n: nat, k: nat :: n < |events| && n < |outcomes| ==>
              AttemptsOn(events, outcomes, n + 1, k)
              == (if events[0].stream == k then [Taken(events[0].entry, outcomes[0])] else [])
                 + AttemptsOn(events[1..], outcomes[1..], n, k)
  {
  }

  /**
   One cycle, after its read: the events attempted are the first ones up to and including the first that fails
   systemically or whose acknowledgement raises; each is recorded with its outcome. An event is acknowledged exactly
   when it is attempted, did not fail systemically, and the command took effect; every other stays pending. Nothing
   else moves.
   */
  lemma {:induction false} SystemicStops<E>(w: World<E>, count: nat, luck: Luck, outcomes: seq<Handling>)
      returns (n: nat)
    requires Inv(w.server, count) && ReadSpec(w.server, w.ensured, count, luck).events.Some?
    ensures var read := ReadSpec(w.server, w.ensured, count, luck);
            var events, after := read.events.value, PollSpec(w, count, luck, outcomes).server;
            && (forall r <- events :: r.stream < |read.server|) && |after| == |read.server|
            && AttemptsFirst(events, outcomes, read.luck, n)
            && CycleEffect(read.server, after, events, outcomes, read.luck, n)
            && (forall a, b :: 0 <= a <= b < |events| && a < |outcomes| && outcomes[a].Systemic? ==>
                  && events[b].entry in after[events[b].stream].pending
                  && events[b].entry !in after[events[b].stream].acked && (a < b ==> b >= n))
  {
    hide ReadSpec, ProcessSpec, AttemptsOn;
    ReadKeeps(w.server, w.ensured, count, luck);
    ReadInRange(w.server, w.ensured, count, luck);
    var read := ReadSpec(w.server, w.ensured, count, luck);
    BatchWaits(read.server, read.events.value, count);
    n := ProcessEffect(read.server, read.events.value, outcomes, read.luck);
    var events, after := read.events.value, PollSpec(w, count, luck, outcomes).server;
    forall a, b | 0 <= a <= b < |events| && a < |outcomes| && outcomes[a].Systemic?
      ensures events[b].entry in after[events[b].stream].pending
      ensures events[b].entry !in after[events[b].stream].acked
      ensures a < b ==> b >= n
    {
      assert !Acknowledged(outcomes, read.luck, b) && (a < b ==> !Attempted(outcomes, read.luck, b));
    }
  }

  lemma {:induction false} BatchWaits<E>(server: Server<E>, events: seq<Ref>, count: nat)
    requires Inv(server, count) && IsBatch(server, events)
    ensures Waiting(server, events)
  {
    forall r | r in events ensures r.entry !in server[r.stream].acked {
      assert StreamInv(server[r.stream], count);
    }
  }

  lemma {:induction false} CleanLoopDrains<E>(server: Server<E>, events: seq<Ref>, outcomes: seq<Handling>, luck: Luck)
    requires IsBatch(server, events)
    requires |events| <= |outcomes| && |events| <= luck.commands && Systemic !in outcomes
    ensures Drained(ProcessSpec(server, events, outcomes, luck))
    decreases |events|
  {
    if events != [] {
      var r := events[0];
      var called := server[r.stream := server[r.stream].Call(r.entry, outcomes[0])];
      BatchTail(server, events, outcomes[0]);
      assert outcomes[0] in outcomes;
      CleanLoopDrains(AckRef(called, r), events[1..], outcomes[1..], Try(called, AckRef(called, r), luck).luck);
    }
  }

  lemma {:induction false} EnsureSpends<E>(server: Server<E>, ensured: set<nat>, k: nat, luck: Luck)
    requires k <= |server| && |server| - k <= luck.commands
    ensures var made := EnsureFrom(server, ensured, k, luck).0;
            !made.raised && |made.state| == |server| && luck.commands <= made.luck.commands + |server| - k
    decreases |server| - k
  {
    if k < |server| {
      if k in ensured {
        EnsureSpends(server, ensured, k + 1, luck);
      } else {
        var made := Try(server, server[k := server[k].(hasGroup := true)], luck);
        EnsureSpends(made.state, ensured + {k}, k + 1, made.luck);
      }
    }
  }

  lemma {:induction false} SiftSpends<E>(server: Server<E>, reply: seq<Ref>, luck: Luck)
    requires (forall r <- reply :: r.stream < |server|) && |reply| <= luck.commands
    ensures var s := Sift(server, reply, luck);
            && s.events.Some? && |s.events.value| <= |reply| && |s.server| == |server|
            && luck.commands + |s.events.value| <= s.luck.commands + |reply|
    decreases |reply|
  {
    if reply != [] {
      if server[reply[0].stream].Readable(reply[0].entry) {
        SiftSpends(server, reply[1..], luck);
      } else {
        var dropped := Try(server, AckRef(server, reply[0]), luck);
        SiftSpends(dropped.state, reply[1..], dropped.luck);
      }
    }
  }

  /** One stream adds at most `count` entries to a reply. */
  lemma {:induction false} StreamAdds<E>(server: Server<E>, count: nat, k: nat)
    requires k < |server|
    ensures |PendingReply(server, count, k)| <= |PendingReply(server, count, k + 1)| + count
    ensures |FreshReply(server, count, k)| <= |FreshReply(server, count, k + 1)| + count
  {
    hide InIdOrder;
  }

  /** The most entries a reply over that many streams can hold. */
  function Most(streams: nat, count: nat): nat {
    if streams == 0 then 0 else count + Most(streams - 1, count)
  }

  lemma {:induction false} MostStep(streams: nat, count: nat)
    requires streams > 0
    ensures Most(streams, count) == count + Most(streams - 1, count)
  {
  }

  lemma {:induction false} NoStreams<E>(server: Server<E>, count: nat)
    ensures PendingReply(server, count, |server|) == [] && FreshReply(server, count, |server|) == []
  {
  }

  lemma {:induction false} RepliesAreSmall<E>(server: Server<E>, count: nat, k: nat)
    requires k <= |server|
    ensures |PendingReply(server, count, k)| <= Most(|server| - k, count)
    ensures |FreshReply(server, count, k)| <= Most(|server| - k, count)
    decreases |server| - k
  {
    hide *;
    if k < |server| {
      StreamAdds(server, count, k);
      RepliesAreSmall(server, count, k + 1);
      MostStep(|server| - k, count);
    } else {
      NoStreams(server, count);
    }
  }

  /** A read whose commands all succeed returns a batch, and leaves enough of them to acknowledge it. */
  lemma {:induction false} ReadSpends<E>(server: Server<E>, ensured: set<nat>, count: nat, luck: Luck)
    requires |server| + 2 + 2 * Most(|server|, count) <= luck.commands
    ensures var read := ReadSpec(server, ensured, count, luck);
            read.events.Some? && |read.events.value| <= Most(|server|, count)
            && |read.events.value| <= read.luck.commands
  {
    hide EnsureFrom, PendingReply, FreshReply, Sift, DeliverAll, Most;
    EnsureSpends(server, ensured, 0, luck);
    var made := EnsureFrom(server, ensured, 0, luck).0;
    var asked := Try(made.state, made.state, made.luck);
    RepliesAreSmall(made.state, count, 0);
    PendingReplyInRange(made.state, count, 0);
    SiftSpends(made.state, PendingReply(made.state, count), asked.luck);
    var old' := Sift(made.state, PendingReply(made.state, count), asked.luck);
    if old'.events.value == [] {
      var given := Try(old'.server, DeliverAll(old'.server, count), old'.luck);
      RepliesAreSmall(old'.server, count, 0);
      FreshReplyInRange(old'.server, count, 0);
      SiftSpends(given.state, FreshReply(old'.server, count), given.luck);
    }
  }

  /** A whole cycle, read included, in which no command and no event fails leaves nothing readable pending. */
  lemma {:induction false} CleanCycleDrains<E>(w: World<E>, count: nat, luck: Luck, outcomes: seq<Handling>)
    requires Inv(w.server, count)
    requires |w.server| + 2 + 2 * Most(|w.server|, count) <= luck.commands
    requires Most(|w.server|, count) <= |outcomes| && Systemic !in outcomes
    ensures Drained(PollSpec(w, count, luck, outcomes).server)
  {
    ReadKeeps(w.server, w.ensured, count, luck);
    ReadInRange(w.server, w.ensured, count, luck);
    ReadSpends(w.server, w.ensured, count, luck);
    var read := ReadSpec(w.server, w.ensured, count, luck);
    CleanLoopDrains(read.server, read.events.value, outcomes, read.luck);
  }

  // ----- whole runs -----

  /** What can happen: producers append, retention trims, the service restarts, the service runs a cycle. */
  datatype Op<E> =
    | Publish(stream: nat, entry: Entry<E>)
    | Trim(stream: nat, position: nat)
    | Restart
    | Poll(luck: Luck, outcomes: seq<Handling>)

  function Apply<E>(w: World<E>, count: nat, op: Op<E>): World<E> {
    match op
    case Publish(k, entry) =>
      if k < |w.server| then w.(server := w.server[k := w.server[k].(log := w.server[k].log + [entry])]) else w
    case Trim(k, i) =>
      if k < |w.server| then w.(server := w.server[k := w.server[k].(trimmed := w.server[k].trimmed + {i})]) else w
    case Restart => w.(ensured := {})
    case Poll(luck, outcomes) => PollSpec(w, count, luck, outcomes)
  }

  function Run<E>(w: World<E>, count: nat, ops: seq<Op<E>>): World<E>
    decreases |ops|
  {
    if ops == [] then w else Run(Apply(w, count, ops[0]), count, ops[1..])
  }

  function NoEntries<E>(streams: nat): World<E> {
    World(seq(streams, _ => Stream([], {}, false, 0, {}, {}, {}, [])), {})
  }

  lemma {:induction false} ApplyKeeps<E>(w: World<E>, count: nat, op: Op<E>)
    requires Inv(w.server, count)
    ensures Inv(Apply(w, count, op).server, count)
  {
    match op
    case Publish(k, entry) =>
      if k < |w.server| {
        var s := w.server[k];
        assert StreamInv(s, count);
        var t := s.(log := s.log + [entry]);
        assert forall i: nat :: i < |s.log| ==> t.Readable(i) == s.Readable(i);
        assert forall i <- s.delivered :: i < |s.log|;
        assert StreamInv(t, count);
        InvUpdate(w.server, k, t, count);
      }
    case Trim(k, i) =>
      if k < |w.server| {
        var s := w.server[k];
        assert StreamInv(s, count);
        var t := s.(trimmed := s.trimmed + {i});
        assert forall j :: t.Readable(j) ==> s.Readable(j);
        assert StreamInv(t, count);
        InvUpdate(w.server, k, t, count);
      }
    case Restart =>
    case Poll(luck, outcomes) => PollKeeps(w, count, luck, outcomes);
  }

  /** The contract holds after every run, for any placement of failures, lost replies, crashes, restarts and trims. */
  lemma {:induction false} RunKeeps<E>(w: World<E>, count: nat, ops: seq<Op<E>>)
    requires Inv(w.server, count)
    ensures Inv(Run(w, count, ops).server, count)
    decreases |ops|
  {
    if ops != [] {
      ApplyKeeps(w, count, ops[0]);
      RunKeeps(Apply(w, count, ops[0]), count, ops[1..]);
    }
  }

  /**
   In every run from empty streams: what the group passed is trimmed, or exactly one of acknowledged and pending,
   at most one batch is pending, acknowledged readable entries are a prefix of the readable delivered
   ones, attempts are in stream order, and each acknowledged readable entry had one that processed it or found it
   poison.
   */
  lemma {:induction false} GroupContract<E>(streams: nat, count: nat, ops: seq<Op<E>>, k: nat)
    requires k < |Run(NoEntries<E>(streams), count, ops).server|
    ensures var s := Run(NoEntries<E>(streams), count, ops).server[k];
            && s.delivered == s.pending + s.acked && s.pending !! s.acked
            && (forall i: nat :: i < s.next ==> i in s.delivered || i in s.trimmed)
            && |s.pending| <= count
            && (forall i, j :: i in s.delivered && s.Readable(i) && j in s.acked && s.Readable(j) && i < j
                  ==> i in s.acked)
            && NonDecreasing(s.calls)
            && (forall i <- s.acked :: s.Readable(i) ==> Settled(s, i))
  {
    RunKeeps(NoEntries<E>(streams), count, ops);
    assert StreamInv(Run(NoEntries<E>(streams), count, ops).server[k], count);
  }

  // ----- the service's own code -----

  /** The Redis client: the streams, and how the coming commands will go. */
  class RedisClient<E> {
    var streams: Server<E>
    var luck: Luck

    constructor (streams: Server<E>, luck: Luck)
      ensures this.streams == streams && this.luck == luck
    {
      this.streams, this.luck := streams, luck;
    }

    /** Any command whose server-side effect turns the streams into `after`. */
    method Command(after: Server<E>) returns (ok: bool)
      modifies this
      ensures Attempt(streams, luck, !ok) == Try(old(streams), after, old(luck))
    {
      ok := luck.commands > 0;
      if ok || luck.lostReply {
        streams := after;
      }
      if ok {
        luck := luck.(commands := luck.commands - 1);
      }
    }
  }

  class GroupEventSubscriber<E> {
    const redis: RedisClient<E>
    var ensured: set<nat>

    constructor (redis: RedisClient<E>)
      ensures this.redis == redis && ensured == {}
    {
      this.redis := redis;
      ensured := {};
    }

    /** The `ensure_group` calls at the top of `read`. */
    method EnsureGroups() returns (ok: bool)
      modifies this, redis
      ensures (Attempt(redis.streams, redis.luck, !ok), ensured)
              == EnsureFrom(old(redis.streams), old(ensured), 0, old(redis.luck))
    {
      var stream := 0;
      ghost var goal := EnsureFrom(redis.streams, ensured, 0, redis.luck);
      while stream < |redis.streams|
        invariant EnsureFrom(redis.streams, ensured, stream, redis.luck) == goal
        decreases |redis.streams| - stream
      {
        if stream !in ensured {
          var made := redis.Command(redis.streams[stream := redis.streams[stream].(hasGroup := true)]);
          if !made {
            return false;
          }
          ensured := ensured + {stream};
        }
        stream := stream + 1;
      }
      ok := true;
    }

    /** The loop over one reply: unreadable entries are acknowledged here, the rest become events. */
    method Collect(reply: seq<Ref>) returns (events: Option<seq<Ref>>)
      requires forall r <- reply :: r.stream < |redis.streams|
      modifies redis
      ensures Sifted(redis.streams, redis.luck, events) == Sift(old(redis.streams), reply, old(redis.luck))
    {
      var found: seq<Ref> := [];
      var i := 0;
      ghost var goal := Sift(redis.streams, reply, redis.luck);
      assert reply[0..] == reply && (goal.events.Some? ==> [] + goal.events.value == goal.events.value);
      while i < |reply|
        invariant 0 <= i <= |reply|
        invariant |redis.streams| == |old(redis.streams)|
        invariant Prepended(found, Sift(redis.streams, reply[i..], redis.luck)) == goal
      {
        var r := reply[i];
        assert reply[i..][1..] == reply[i + 1..];
        if redis.streams[r.stream].Readable(r.entry) {
          ghost var rest := Sift(redis.streams, reply[i + 1..], redis.luck);
          assert rest.events.Some? ==> found + ([r] + rest.events.value) == found + [r] + rest.events.value;
          found := found + [r];
        } else {
          var acked := redis.Command(AckRef(redis.streams, r));
          if !acked {
            return None;
          }
        }
        i := i + 1;
      }
      assert reply[i..] == [] && found + [] == found;
      events := Some(found);
    }

    /** `read`: pending entries first, new ones only when that yields nothing. `None` when a command raised. */
    method Read(count: nat) returns (events: Option<seq<Ref>>)
      modifies this, redis
      ensures ReadResult(redis.streams, ensured, redis.luck, events)
              == ReadSpec(old(redis.streams), old(ensured), count, old(redis.luck))
    {
      var ready := EnsureGroups();
      if !ready {
        return None;
      }
      var asked := redis.Command(redis.streams);
      if !asked {
        return None;
      }
      PendingReplyInRange(redis.streams, count, 0);
      events := Collect(PendingReply(redis.streams, count));
      if events.None? || events.value != [] {
        return;
      }
      FreshReplyInRange(redis.streams, count, 0);
      var reply := FreshReply(redis.streams, count);
      var given := redis.Command(DeliverAll(redis.streams, count));
      if !given {
        return None;
      }
      events := Collect(reply);
    }

    /** The consumer's `poll_once`: read a batch, process and acknowledge, break on a systemic failure. */
    method PollOnce(count: nat, outcomes: seq<Handling>)
      modifies this, redis
      ensures World(redis.streams, ensured)
              == PollSpec(World(old(redis.streams), old(ensured)), count, old(redis.luck), outcomes)
    {
      ReadInRange(redis.streams, ensured, count, redis.luck);
      var events := Read(count);
      if events.None? {
        return;
      }
      var batch := events.value;
      ghost var goal, known := ProcessSpec(redis.streams, batch, outcomes, redis.luck), ensured;
      assert PollSpec(World(old(redis.streams), old(ensured)), count, old(redis.luck), outcomes) == World(goal, known);
      hide PollSpec, ReadSpec;
      var i := 0;
      while i < |batch| && i < |outcomes|
        invariant 0 <= i <= |batch| && i <= |outcomes|
        invariant forall r <- batch :: r.stream < |redis.streams|
        invariant ProcessSpec(redis.streams, batch[i..], outcomes[i..], redis.luck) == goal
        invariant ensured == known
      {
        var r := batch[i];
        assert batch[i..][1..] == batch[i + 1..] && outcomes[i..][1..] == outcomes[i + 1..];
        redis.streams := redis.streams[r.stream := redis.streams[r.stream].Call(r.entry, outcomes[i])];
        if outcomes[i].Systemic? {
          return;
        }
        var acked := redis.Command(AckRef(redis.streams, r));
        if !acked {
          return;
        }
        i := i + 1;
      }
    }
  }
}
