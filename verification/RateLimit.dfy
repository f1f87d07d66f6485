/**
 The order-rate limiter (src/shrap/risk_compliance/rate_limit.py): a daily counter and a cooldown claim per
 account, kept in Redis keys that expire. Requests interleave command by command, processes die and replies get
 lost anywhere; each command reads the clock, in seconds, once, and so does the day in its key.
 */
module RateLimit {
  import opened Wrappers
  import opened Text

  const DAY_SECONDS := 86400
  const DAY_KEY_TTL := 172800

  /** Zero or negative disables the limit. */
  datatype Config = Config(maxOrders: int, cooldown: int)

  /** A normalised request; `slot` is empty when none was given. */
  datatype Request = Request(account: string, symbol: string, slot: string)

  /** `acquire`'s normalisation of its arguments. */
  function Normalised(ticker: string, account: Option<string>, slot: Option<string>): Request {
    var named := if account.Some? then Strip(account.value) else "";
    Request(if named != "" then named else "unattributed", Upper(Strip(ticker)), if slot.Some? then slot.value else "")
  }

  function DayOf(now: nat): nat {
    now / DAY_SECONDS
  }

  /** Every request counts for an account: its own, blanks at the ends aside, or the one for requests that name none. */
  lemma {:induction false} NormalisedExactly(ticker: string, account: Option<string>, slot: Option<string>)
    ensures var r := Normalised(ticker, account, slot);
            && r.account == (if account.Some? && !Blank(account.value) then Strip(account.value) else "unattributed")
            && r.account != "" && r.symbol == Upper(Strip(ticker))
            && (r.slot == "" <==> slot in {None, Some("")}) && (r.slot != "" ==> slot == Some(r.slot))
  {
    hide Strip, Upper, IsSpace;
    if account.Some? {
      StripEnds(account.value);
    }
  }

  // ----- keys -----

  datatype Key =
    | CountKey(day: string, account: string)
    | SlotKey(day: string, account: string, symbol: string, slot: string)
    | WindowKey(account: string, symbol: string)

  /** The key as it is sent. */
  function KeyText(k: Key): string {
    match k
    case CountKey(day, account) => "risk:approved-count:" + (day + ":" + account)
    case SlotKey(day, account, symbol, slot) => "risk:cooldown:" + (day + ":" + (account + ":" + (symbol + ":" + slot)))
    case WindowKey(account, symbol) => "risk:cooldown:" + (account + ":" + symbol)
  }

  /** Days, accounts and symbols hold no colon; slots may. */
  predicate PlainKey(k: Key) {
    match k
    case CountKey(day, account) => ColonFree(day) && ColonFree(account)
    case SlotKey(day, account, symbol, _) => ColonFree(day) && ColonFree(account) && ColonFree(symbol)
    case WindowKey(account, symbol) => ColonFree(account) && ColonFree(symbol)
  }

  lemma {:induction false} SamePrefix(p: string, x: string, y: string)
    requires p + x == p + y
    ensures x == y
  {
    assert x == (p + x)[|p|..] && y == (p + y)[|p|..];
  }

  /** A colon-free text is no text with a colon. */
  lemma {:induction false} NoColonInside(a: string, x: string, y: string)
    requires ColonFree(a)
    ensures a != x + ":" + y
  {
    assert (x + ":" + y)[|x|] == ':';
  }

  lemma {:induction false} CountersStandApart(day: string, account: string, k: Key)
    requires !k.CountKey?
    ensures KeyText(CountKey(day, account)) != KeyText(k)
  {
    assert KeyText(CountKey(day, account))[5] == 'a' && KeyText(k)[5] == 'c';
  }

  lemma {:induction false} SlotIsNoWindow(a: string, s: string, d: string, a': string, s': string, x: string)
    requires ColonFree(a) && ColonFree(s) && ColonFree(d)
    ensures KeyText(WindowKey(a, s)) != KeyText(SlotKey(d, a', s', x))
  {
    hide ColonFree;
    NoColonInside(s, a', s' + ":" + x);
    assert a' + ":" + (s' + ":" + x) == (a' + ":") + (s' + ":" + x);
    if KeyText(WindowKey(a, s)) == KeyText(SlotKey(d, a', s', x)) {
      SamePrefix("risk:cooldown:", a + ":" + s, d + ":" + (a' + ":" + (s' + ":" + x)));
      SplitAtFirstColon(a, s, d, a' + ":" + (s' + ":" + x));
    }
  }

  /** Different keys are different texts. */
  lemma {:induction false} KeysAreInjective(k: Key, k': Key)
    requires PlainKey(k) && PlainKey(k') && KeyText(k) == KeyText(k')
    ensures k == k'
  {
    hide ColonFree;
    match (k, k') {
      case (CountKey(d, a), CountKey(d', a')) =>
        SamePrefix("risk:approved-count:", d + ":" + a, d' + ":" + a');
        SplitAtFirstColon(d, a, d', a');
      case (WindowKey(a, s), WindowKey(a', s')) =>
        SamePrefix("risk:cooldown:", a + ":" + s, a' + ":" + s');
        SplitAtFirstColon(a, s, a', s');
      case (SlotKey(d, a, s, x), SlotKey(d', a', s', x')) =>
        SamePrefix("risk:cooldown:", d + ":" + (a + ":" + (s + ":" + x)), d' + ":" + (a' + ":" + (s' + ":" + x')));
        SplitAtFirstColon(d, a + ":" + (s + ":" + x), d', a' + ":" + (s' + ":" + x'));
        SplitAtFirstColon(a, s + ":" + x, a', s' + ":" + x');
        SplitAtFirstColon(s, x, s', x');
      case (CountKey(d, a), _) => CountersStandApart(d, a, k');
      case (_, CountKey(d, a)) => CountersStandApart(d, a, k);
      case (WindowKey(a, s), SlotKey(d', a', s', x')) => SlotIsNoWindow(a, s, d', a', s', x');
      case (SlotKey(d, a, s, x), WindowKey(a', s')) => SlotIsNoWindow(a', s', d, a, s, x);
    }
  }

  // ----- Redis -----

  /** A key's number and, if any, the instant it expires. */
  datatype Cell = Cell(number: nat, expires: Option<nat>)

  type Redis = map<StoredKey, Cell>

  /** A key with its day kept as a number. */
  datatype StoredKey =
    | Counter(day: nat, account: string)
    | Slot(day: nat, account: string, symbol: string, slot: string)
    | Window(account: string, symbol: string)

  predicate Alive(r: Redis, k: StoredKey, now: nat) {
    k in r && (r[k].expires.None? || now < r[k].expires.value)
  }

  /** `INCR`. */
  function Incremented(r: Redis, k: StoredKey, now: nat): Redis {
    if Alive(r, k, now) then r[k := r[k].(number := r[k].number + 1)] else r[k := Cell(1, None)]
  }

  /** `EXPIRE`. */
  function Expiring(r: Redis, k: StoredKey, now: nat, ttl: nat): Redis {
    if Alive(r, k, now) then r[k := r[k].(expires := Some(now + ttl))] else r
  }

  /** `SET key 1 NX EX ttl`: nothing when the key is alive. */
  function Claimed(r: Redis, k: StoredKey, now: nat, ttl: nat): Redis {
    if Alive(r, k, now) then r else r[k := Cell(1, Some(now + ttl))]
  }

  // ----- requests, command by command -----

  /** One call of `acquire` by one process. */
  datatype CallId = CallId(account: string, number: nat)

  /** Where a call stands: its counter still lacks an expiry, or its claim is next. `ticket` is what INCR returned. */
  datatype Phase = NeedsExpiry(request: Request, day: nat, ticket: nat)
    | NeedsClaim(request: Request, day: nat, ticket: nat)

  datatype Approval = Approval(request: Request, countedOn: nat, ticket: nat, claimedAt: nat)

  datatype World = World(redis: Redis, calls: map<CallId, Phase>, approvals: seq<Approval>)

  const Fresh := World(map[], map[], [])

  /** `lost` says that the reply never arrived: the command took effect and the call is gone. */
  datatype Step =
    | Count(id: CallId, symbol: string, slot: string, now: nat, lost: bool)
    | Expire(id: CallId, now: nat, lost: bool)
    | Claim(id: CallId, now: nat, lost: bool)
    | Die(id: CallId, now: nat)

  function ClaimKey(request: Request, now: nat): StoredKey {
    if request.slot != "" then Slot(DayOf(now), request.account, request.symbol, request.slot)
    else Window(request.account, request.symbol)
  }

  function ClaimTtl(c: Config, request: Request): int {
    if request.slot != "" then DAY_KEY_TTL else c.cooldown
  }

  function Apply(c: Config, w: World, s: Step): World {
    match s
    case Count(id, symbol, slot, now, lost) =>
      var request := Request(id.account, symbol, slot);
      if id in w.calls then w
      else if c.maxOrders <= 0 then w.(calls := w.calls[id := NeedsClaim(request, DayOf(now), 0)])
      else
        var k := Counter(DayOf(now), id.account);
        var redis := Incremented(w.redis, k, now);
        var ticket := redis[k].number;
        if lost || ticket > c.maxOrders then w.(redis := redis)
        else World(redis, w.calls[id := if ticket == 1 then NeedsExpiry(request, DayOf(now), 1)
                                        else NeedsClaim(request, DayOf(now), ticket)], w.approvals)
    case Expire(id, now, lost) =>
      if id !in w.calls || !w.calls[id].NeedsExpiry? then w
      else
        var p := w.calls[id];
        var redis := Expiring(w.redis, Counter(p.day, id.account), now, DAY_KEY_TTL);
        if lost then World(redis, w.calls - {id}, w.approvals)
        else World(redis, w.calls[id := NeedsClaim(p.request, p.day, p.ticket)], w.approvals)
    case Claim(id, now, lost) =>
      if id !in w.calls || !w.calls[id].NeedsClaim? then w
      else
        var p := w.calls[id];
        var k, ttl := ClaimKey(p.request, now), ClaimTtl(c, p.request);
        var calls := w.calls - {id};
        var approved := w.approvals + [Approval(p.request, p.day, p.ticket, now)];
        if ttl <= 0 then World(w.redis, calls, approved)
        else World(Claimed(w.redis, k, now, ttl), calls,
                   if Alive(w.redis, k, now) || lost then w.approvals else approved)
    case Die(id, _) => w.(calls := w.calls - {id})
  }

  function Run(c: Config, steps: seq<Step>): World {
    if steps == [] then Fresh else Apply(c, Run(c, steps[..|steps| - 1]), steps[|steps| - 1])
  }

  ghost predicate ClockForward(steps: seq<Step>) {
    forall j, k :: 0 <= j < k < |steps| ==> steps[j].now <= steps[k].now
  }

  // ----- the cap -----

  /** The tickets still standing: of calls in flight and of approvals. */
  ghost predicate TicketFits(c: Config, r: Redis, account: string, day: nat, ticket: nat, now: nat) {
    && 1 <= ticket <= c.maxOrders
    && day <= DayOf(now)
    && (day == DayOf(now) ==> Alive(r, Counter(day, account), now) && ticket <= r[Counter(day, account)].number)
  }

  ghost predicate TicketsFit(c: Config, w: World, now: nat) {
    && (forall i :: 0 <= i < |w.approvals| ==>
          TicketFits(c, w.redis, w.approvals[i].request.account, w.approvals[i].countedOn, w.approvals[i].ticket, now))
    && (forall id :: id in w.calls ==>
          w.calls[id].request.account == id.account
          && TicketFits(c, w.redis, id.account, w.calls[id].day, w.calls[id].ticket, now))
  }

  ghost predicate TicketsDiffer(w: World) {
    && (forall i, j :: 0 <= i < j < |w.approvals| ==> DifferentTickets(w.approvals[i], w.approvals[j]))
    && (forall i, id :: 0 <= i < |w.approvals| && id in w.calls ==> !HoldsTicket(w, id, w.approvals[i]))
    && (forall id, id' :: id in w.calls && id' in w.calls && id != id' && id.account == id'.account ==>
          w.calls[id].day != w.calls[id'].day || w.calls[id].ticket != w.calls[id'].ticket)
  }

  ghost predicate DifferentTickets(a: Approval, b: Approval) {
    a.request.account != b.request.account || a.countedOn != b.countedOn || a.ticket != b.ticket
  }

  ghost predicate HoldsTicket(w: World, id: CallId, a: Approval)
    requires id in w.calls
  {
    id.account == a.request.account && w.calls[id].day == a.countedOn && w.calls[id].ticket == a.ticket
  }

  /** A counter's expiry, once set, lies beyond its own day. */
  ghost predicate CountersOutliveTheirDay(r: Redis) {
    forall d: nat, a: string :: Counter(d, a) in r && r[Counter(d, a)].expires.Some? ==>
      r[Counter(d, a)].expires.value >= (d + 1) * DAY_SECONDS
  }

  lemma {:induction false} DayBounds(now: nat)
    ensures DayOf(now) * DAY_SECONDS <= now < (DayOf(now) + 1) * DAY_SECONDS
  {
  }

  lemma {:induction false} DayIsMonotone(a: nat, b: nat)
    requires a <= b
    ensures DayOf(a) <= DayOf(b)
  {
  }

  lemma {:induction false} CounterStaysAlive(r: Redis, day: nat, account: string, now: nat, later: nat)
    requires CountersOutliveTheirDay(r) && Alive(r, Counter(day, account), now) && DayOf(later) == day
    ensures Alive(r, Counter(day, account), later)
  {
    DayBounds(later);
  }

  lemma {:induction false} TimePasses(c: Config, w: World, now: nat, later: nat)
    requires TicketsFit(c, w, now) && CountersOutliveTheirDay(w.redis) && now <= later
    ensures TicketsFit(c, w, later)
  {
    DayIsMonotone(now, later);
    forall a: string, d: nat, n: nat | TicketFits(c, w.redis, a, d, n, now)
      ensures TicketFits(c, w.redis, a, d, n, later)
    {
      if d == DayOf(later) {
        CounterStaysAlive(w.redis, d, a, now, later);
      }
    }
  }

  ghost predicate CapInv(c: Config, w: World, now: nat) {
    c.maxOrders > 0 ==> TicketsFit(c, w, now) && TicketsDiffer(w) && CountersOutliveTheirDay(w.redis)
  }

  /** A step that leaves every live counter alive, and at least as high, keeps tickets fitting. */
  ghost predicate CountersGrow(r: Redis, r': Redis, now: nat) {
    forall d: nat, a: string :: Alive(r, Counter(d, a), now) ==>
      Alive(r', Counter(d, a), now) && r[Counter(d, a)].number <= r'[Counter(d, a)].number
  }

  /** What `Count` does to the counters and the calls. */
  lemma {:induction false} CountEffect(c: Config, w: World, s: Step)
    requires s.Count? && c.maxOrders > 0 && s.id !in w.calls
    ensures var w', k := Apply(c, w, s), Counter(DayOf(s.now), s.id.account);
            && w'.redis == Incremented(w.redis, k, s.now) && w'.approvals == w.approvals
            && (w'.calls == w.calls
                || (w'.redis[k].number <= c.maxOrders
                    && exists p: Phase :: w'.calls == w.calls[s.id := p] && p.request.account == s.id.account
                         && p.day == DayOf(s.now) && p.ticket == w'.redis[k].number))
  {
    hide Alive;
    var r := Request(s.id.account, s.symbol, s.slot);
    var w', k := Apply(c, w, s), Counter(DayOf(s.now), s.id.account);
    if w'.calls != w.calls {
      var p := w'.calls[s.id];
      assert w'.calls == w.calls[s.id := p];
    }
  }

  /** An increment hands out a number above every ticket of that account and day. */
  lemma {:induction false} IncrementIsNew(c: Config, r: Redis, k: StoredKey, now: nat)
    requires k.Counter? && k.day == DayOf(now) && CountersOutliveTheirDay(r)
    ensures var r' := Incremented(r, k, now);
            && CountersGrow(r, r', now) && CountersOutliveTheirDay(r')
            && k in r' && Alive(r', k, now) && r'[k].number >= 1
            && (Alive(r, k, now) ==> r'[k].number == r[k].number + 1)
  {
    DayBounds(now);
  }

  lemma {:induction false} FitsAfter(c: Config, r: Redis, r': Redis, account: string, day: nat, ticket: nat, now: nat)
    requires TicketFits(c, r, account, day, ticket, now) && CountersGrow(r, r', now)
    ensures TicketFits(c, r', account, day, ticket, now)
  {
  }

  lemma {:induction false} CountKeepsCap(c: Config, w: World, s: Step)
    requires s.Count? && c.maxOrders > 0 && CapInv(c, w, s.now)
    ensures CapInv(c, Apply(c, w, s), s.now)
  {
    hide Apply, Incremented, CountersGrow;
    if s.id !in w.calls {
      var k := Counter(DayOf(s.now), s.id.account);
      var w' := Apply(c, w, s);
      CountEffect(c, w, s);
      IncrementIsNew(c, w.redis, k, s.now);
      forall i | 0 <= i < |w.approvals|
        ensures TicketFits(c, w'.redis, w.approvals[i].request.account, w.approvals[i].countedOn, w.approvals[i].ticket,
                           s.now)
        ensures w.approvals[i].request.account == s.id.account && w.approvals[i].countedOn == DayOf(s.now)
                ==> w.approvals[i].ticket < w'.redis[k].number
      {
        FitsAfter(c, w.redis, w'.redis, w.approvals[i].request.account, w.approvals[i].countedOn, w.approvals[i].ticket,
                  s.now);
      }
      forall id | id in w.calls
        ensures TicketFits(c, w'.redis, id.account, w.calls[id].day, w.calls[id].ticket, s.now)
        ensures id.account == s.id.account && w.calls[id].day == DayOf(s.now)
                ==> w.calls[id].ticket < w'.redis[k].number
      {
        FitsAfter(c, w.redis, w'.redis, id.account, w.calls[id].day, w.calls[id].ticket, s.now);
      }
      forall i, id | 0 <= i < |w.approvals| && id in w.calls ensures !HoldsTicket(w, id, w.approvals[i]) {
      }
    } else {
      Unchanged(c, w, s);
    }
  }

  lemma {:induction false} Unchanged(c: Config, w: World, s: Step)
    requires s.Count? && s.id in w.calls
    ensures Apply(c, w, s) == w
  {
  }

  lemma {:induction false} ExpiryKeeps(r: Redis, k: StoredKey, now: nat)
    requires k.Counter? && k.day <= DayOf(now) && CountersOutliveTheirDay(r)
    ensures var r' := Expiring(r, k, now, DAY_KEY_TTL); CountersGrow(r, r', now) && CountersOutliveTheirDay(r')
  {
    LateExpiry(k.day, now);
  }

  lemma {:induction false} ExpireEffect(c: Config, w: World, s: Step)
    requires s.Expire? && s.id in w.calls && w.calls[s.id].NeedsExpiry?
    ensures var w', p := Apply(c, w, s), w.calls[s.id];
            && w'.redis == Expiring(w.redis, Counter(p.day, s.id.account), s.now, DAY_KEY_TTL)
               && w'.approvals == w.approvals
            && (w'.calls == w.calls - {s.id} || w'.calls == w.calls[s.id := NeedsClaim(p.request, p.day, p.ticket)])
  {
    hide Expiring;
  }

  lemma {:induction false} ExpireKeepsCap(c: Config, w: World, s: Step)
    requires s.Expire? && c.maxOrders > 0 && CapInv(c, w, s.now)
    ensures CapInv(c, Apply(c, w, s), s.now)
  {
    hide Expiring, CountersGrow;
    if s.id in w.calls && w.calls[s.id].NeedsExpiry? {
      ExpireEffect(c, w, s);
      hide Apply;
      var w' := Apply(c, w, s);
      ExpiryKeeps(w.redis, Counter(w.calls[s.id].day, s.id.account), s.now);
      forall a: string, d: nat, n: nat | TicketFits(c, w.redis, a, d, n, s.now)
        ensures TicketFits(c, w'.redis, a, d, n, s.now)
      {
        FitsAfter(c, w.redis, w'.redis, a, d, n, s.now);
      }
      forall i, id | 0 <= i < |w.approvals| && id in w.calls ensures !HoldsTicket(w, id, w.approvals[i]) {
      }
    }
  }

  lemma {:induction false} LateExpiry(day: nat, now: nat)
    requires day <= DayOf(now)
    ensures now + DAY_KEY_TTL >= (day + 1) * DAY_SECONDS
  {
    DayBounds(now);
    assert day * DAY_SECONDS <= DayOf(now) * DAY_SECONDS;
  }

  /** A claim, or a death, leaves every counter alone. */
  lemma {:induction false} ClaimSparesCounters(c: Config, w: World, s: Step)
    requires s.Claim? || s.Die?
    ensures var r := Apply(c, w, s).redis;
            forall d: nat, a: string :: (Counter(d, a) in r <==> Counter(d, a) in w.redis)
                                        && (Counter(d, a) in w.redis ==> r[Counter(d, a)] == w.redis[Counter(d, a)])
  {
    hide Alive;
  }

  /** A claim, or a death, ends one call and approves at most that call's own ticket. */
  lemma {:induction false} ClaimEndsOneCall(c: Config, w: World, s: Step)
    requires s.Claim? || s.Die?
    ensures var w' := Apply(c, w, s);
            && (w'.calls == w.calls || w'.calls == w.calls - {s.id})
            && (w'.approvals == w.approvals
                || (s.id in w.calls && w'.calls == w.calls - {s.id}
                    && w'.approvals == w.approvals
                       + [Approval(w.calls[s.id].request, w.calls[s.id].day, w.calls[s.id].ticket, s.now)]))
  {
    hide Alive, Claimed, ClaimKey, ClaimTtl;
  }

  lemma {:induction false} ClaimKeepsFit(c: Config, w: World, s: Step)
    requires (s.Claim? || s.Die?) && TicketsFit(c, w, s.now) && CountersOutliveTheirDay(w.redis)
    ensures TicketsFit(c, Apply(c, w, s), s.now) && CountersOutliveTheirDay(Apply(c, w, s).redis)
  {
    hide Apply;
    ClaimSparesCounters(c, w, s);
    ClaimEndsOneCall(c, w, s);
    var w' := Apply(c, w, s);
    forall a: string, d: nat, n: nat | TicketFits(c, w.redis, a, d, n, s.now)
      ensures TicketFits(c, w'.redis, a, d, n, s.now)
    {
    }
  }

  lemma {:induction false} ClaimKeepsDiffer(c: Config, w: World, s: Step)
    requires (s.Claim? || s.Die?) && TicketsDiffer(w)
             && forall id :: id in w.calls ==> w.calls[id].request.account == id.account
    ensures TicketsDiffer(Apply(c, w, s))
  {
    hide Apply;
    ClaimEndsOneCall(c, w, s);
    var w' := Apply(c, w, s);
    if w'.approvals != w.approvals {
      var last := w'.approvals[|w.approvals|];
      forall i | 0 <= i < |w.approvals| ensures DifferentTickets(w.approvals[i], last) {
        assert !HoldsTicket(w, s.id, w.approvals[i]);
      }
      forall i, id | 0 <= i < |w'.approvals| && id in w'.calls ensures !HoldsTicket(w', id, w'.approvals[i]) {
        if i < |w.approvals| {
          assert !HoldsTicket(w, id, w.approvals[i]);
        }
      }
    } else {
      forall i, id | 0 <= i < |w'.approvals| && id in w'.calls ensures !HoldsTicket(w', id, w'.approvals[i]) {
        assert !HoldsTicket(w, id, w.approvals[i]);
      }
    }
  }

  lemma {:induction false} ClaimKeepsCap(c: Config, w: World, s: Step)
    requires (s.Claim? || s.Die?) && c.maxOrders > 0 && CapInv(c, w, s.now)
    ensures CapInv(c, Apply(c, w, s), s.now)
  {
    hide Apply, TicketsDiffer, CountersOutliveTheirDay;
    ClaimKeepsFit(c, w, s);
    ClaimKeepsDiffer(c, w, s);
  }

  // ----- the cooldowns -----

  /** What an approval left behind: its key, until its time is up. */
  ghost predicate ClaimHeld(c: Config, r: Redis, a: Approval) {
    ClaimTtl(c, a.request) > 0 ==>
      var k := ClaimKey(a.request, a.claimedAt);
      k in r && r[k].expires.Some? && r[k].expires.value >= a.claimedAt + ClaimTtl(c, a.request)
  }

  /** Two approvals claiming one key are at least its lifetime apart. */
  ghost predicate Apart(c: Config, a: Approval, b: Approval) {
    (ClaimTtl(c, a.request) > 0 && ClaimKey(a.request, a.claimedAt) == ClaimKey(b.request, b.claimedAt))
    ==> a.claimedAt + ClaimTtl(c, a.request) <= b.claimedAt
  }

  ghost predicate ClaimInv(c: Config, w: World) {
    && (forall i :: 0 <= i < |w.approvals| ==> ClaimHeld(c, w.redis, w.approvals[i]))
    && (forall i, j :: 0 <= i < j < |w.approvals| ==> Apart(c, w.approvals[i], w.approvals[j]))
  }

  lemma {:induction false} CountersKeepClaims(c: Config, w: World, s: Step)
    requires !s.Claim? && ClaimInv(c, w)
    ensures ClaimInv(c, Apply(c, w, s))
  {
    var w' := Apply(c, w, s);
    assert forall k: StoredKey :: !k.Counter? && k in w.redis ==> k in w'.redis && w'.redis[k] == w.redis[k];
    forall i | 0 <= i < |w'.approvals| ensures ClaimHeld(c, w'.redis, w'.approvals[i]) {
      assert ClaimHeld(c, w.redis, w.approvals[i]);
    }
  }

  lemma {:induction false} SameKeySameTtl(c: Config, a: Request, b: Request, at: nat, bt: nat)
    requires ClaimKey(a, at) == ClaimKey(b, bt)
    ensures ClaimTtl(c, a) == ClaimTtl(c, b)
  {
  }

  lemma {:induction false} ClaimKeepsClaims(c: Config, w: World, s: Step)
    requires s.Claim? && ClaimInv(c, w)
    ensures ClaimInv(c, Apply(c, w, s))
  {
    hide ClaimKey, ClaimTtl;
    if s.id in w.calls && w.calls[s.id].NeedsClaim? {
      var p := w.calls[s.id];
      var k, ttl := ClaimKey(p.request, s.now), ClaimTtl(c, p.request);
      var w' := Apply(c, w, s);
      forall i | 0 <= i < |w.approvals|
        ensures ClaimHeld(c, w'.redis, w.approvals[i])
        ensures w'.approvals != w.approvals ==> Apart(c, w.approvals[i], w'.approvals[|w.approvals|])
      {
        var a := w.approvals[i];
        assert ClaimHeld(c, w.redis, a);
        if ClaimKey(a.request, a.claimedAt) == k {
          SameKeySameTtl(c, a.request, p.request, a.claimedAt, s.now);
        }
      }
    }
  }

  ghost predicate Inv(c: Config, w: World, now: nat) {
    CapInv(c, w, now) && ClaimInv(c, w)
  }

  lemma {:induction false} StepKeeps(c: Config, w: World, s: Step)
    requires Inv(c, w, s.now)
    ensures Inv(c, Apply(c, w, s), s.now)
  {
    hide Apply, TicketsFit, TicketsDiffer, CountersOutliveTheirDay, ClaimInv;
    if c.maxOrders > 0 {
      match s {
        case Count(_, _, _, _, _) => CountKeepsCap(c, w, s);
        case Expire(_, _, _) => ExpireKeepsCap(c, w, s);
        case Claim(_, _, _) => ClaimKeepsCap(c, w, s);
        case Die(_, _) => ClaimKeepsCap(c, w, s);
      }
    }
    if s.Claim? {
      ClaimKeepsClaims(c, w, s);
    } else {
      CountersKeepClaims(c, w, s);
    }
  }

  lemma {:induction false} RunKeeps(c: Config, steps: seq<Step>)
    requires ClockForward(steps) && steps != []
    ensures Inv(c, Run(c, steps), steps[|steps| - 1].now)
  {
    hide Apply, TicketsFit, TicketsDiffer, CountersOutliveTheirDay, ClaimInv;
    var before, last := steps[..|steps| - 1], steps[|steps| - 1];
    if before == [] {
      FreshHolds(c, last.now);
    } else {
      RunKeeps(c, before);
      if c.maxOrders > 0 {
        TimePasses(c, Run(c, before), before[|before| - 1].now, last.now);
      }
    }
    StepKeeps(c, Run(c, before), last);
  }

  lemma {:induction false} FreshHolds(c: Config, now: nat)
    ensures Inv(c, Fresh, now)
  {
  }

  // ----- what it all says -----

  /** Approvals of `account` counted on `day`, with tickets up to `top`. */
  ghost function ApprovedOn(approvals: seq<Approval>, account: string, day: nat, top: int): nat {
    if approvals == [] then 0
    else
      var a := approvals[|approvals| - 1];
      ApprovedOn(approvals[..|approvals| - 1], account, day, top)
      + if a.request.account == account && a.countedOn == day && a.ticket <= top then 1 else 0
  }

  ghost predicate AllDiffer(approvals: seq<Approval>) {
    forall i, j :: 0 <= i < j < |approvals| ==> DifferentTickets(approvals[i], approvals[j])
  }

  /** Raising the bound by one ticket admits at most one more approval. */
  lemma {:induction false} OneMoreTicket(approvals: seq<Approval>, account: string, day: nat, top: int)
    requires AllDiffer(approvals)
    ensures ApprovedOn(approvals, account, day, top) <= ApprovedOn(approvals, account, day, top - 1) + 1
    ensures (forall i :: 0 <= i < |approvals|
               ==> !(approvals[i].request.account == account && approvals[i].countedOn == day
                     && approvals[i].ticket == top))
              ==> ApprovedOn(approvals, account, day, top) == ApprovedOn(approvals, account, day, top - 1)
  {
    if approvals != [] {
      var before, a := approvals[..|approvals| - 1], approvals[|approvals| - 1];
      OneMoreTicket(before, account, day, top);
      if a.request.account == account && a.countedOn == day && a.ticket == top {
        forall i | 0 <= i < |before|
          ensures !(before[i].request.account == account && before[i].countedOn == day && before[i].ticket == top)
        {
          assert DifferentTickets(approvals[i], a);
        }
      }
    }
  }

  lemma {:induction false} Pigeonhole(approvals: seq<Approval>, account: string, day: nat, top: nat)
    requires AllDiffer(approvals) && forall i :: 0 <= i < |approvals| ==> approvals[i].ticket >= 1
    ensures ApprovedOn(approvals, account, day, top) <= top
    decreases top
  {
    if top == 0 {
      NoTickets(approvals, account, day);
    } else {
      Pigeonhole(approvals, account, day, top - 1);
      OneMoreTicket(approvals, account, day, top);
    }
  }

  lemma {:induction false} NoTickets(approvals: seq<Approval>, account: string, day: nat)
    requires forall i :: 0 <= i < |approvals| ==> approvals[i].ticket >= 1
    ensures ApprovedOn(approvals, account, day, 0) == 0
  {
    if approvals != [] {
      NoTickets(approvals[..|approvals| - 1], account, day);
    }
  }

  /** In any interleaving, an account never has more approvals counted on one UTC day than the cap allows. */
  lemma {:induction false} CapHolds(c: Config, steps: seq<Step>, account: string, day: nat)
    requires ClockForward(steps) && c.maxOrders > 0
    ensures ApprovedOn(Run(c, steps).approvals, account, day, c.maxOrders) <= c.maxOrders
    ensures forall i :: 0 <= i < |Run(c, steps).approvals| ==> Run(c, steps).approvals[i].ticket <= c.maxOrders
  {
    hide Apply;
    if steps != [] {
      RunKeeps(c, steps);
      var approvals := Run(c, steps).approvals;
      assert forall i :: 0 <= i < |approvals| ==> 1 <= approvals[i].ticket <= c.maxOrders;
      Pigeonhole(approvals, account, day, c.maxOrders);
    }
  }

  /**
   In any interleaving: at most one approval per day, account, symbol and slot; and approvals without a slot for
   one account and symbol are at least the cooldown apart.
   */
  lemma {:induction false} CooldownsHold(c: Config, steps: seq<Step>, i: nat, j: nat)
    requires ClockForward(steps) && i < j < |Run(c, steps).approvals|
    ensures var a, b := Run(c, steps).approvals[i], Run(c, steps).approvals[j];
            && (a.request.slot != "" && a.request == b.request ==> DayOf(a.claimedAt) != DayOf(b.claimedAt))
            && (a.request.slot == "" && a.request == b.request && c.cooldown > 0
                ==> a.claimedAt + c.cooldown <= b.claimedAt)
  {
    hide Apply, TicketsFit, TicketsDiffer, CountersOutliveTheirDay;
    RunKeeps(c, steps);
    var a, b := Run(c, steps).approvals[i], Run(c, steps).approvals[j];
    assert Apart(c, a, b);
    if DayOf(a.claimedAt) == DayOf(b.claimedAt) {
      DayBounds(a.claimedAt);
      DayBounds(b.claimedAt);
    }
  }

  // ----- when a request is granted -----

  /** A call with nothing between its commands, which all reply. */
  function Alone(c: Config, w: World, id: CallId, symbol: string, slot: string, t1: nat, t2: nat, t3: nat): World {
    Apply(c, Apply(c, Apply(c, w, Count(id, symbol, slot, t1, false)), Expire(id, t2, false)), Claim(id, t3, false))
  }

  /** What the day's counter shows: nothing when it is gone. */
  function UsedOn(r: Redis, account: string, now: nat): nat {
    var k := Counter(DayOf(now), account);
    if Alive(r, k, now) then r[k].number else 0
  }

  /**
   A call is granted exactly when the account's counter of the day is still below the cap, if there is one, and
   nobody holds the key of its day, symbol and slot, or without a slot that of its symbol; no key is asked for when
   there is no slot and no cooldown. The counter goes up either way, and expires two days after its first count; a
   key is taken exactly with the grant, for two days with a slot and for the cooldown without. Nothing else changes.
   */
  lemma {:induction false} GrantedExactly(c: Config, w: World, id: CallId, symbol: string, slot: string, t1: nat,
                                          t2: nat, t3: nat)
    requires id !in w.calls
    ensures var used, after := UsedOn(w.redis, id.account, t1), Alone(c, w, id, symbol, slot, t1, t2, t3);
            var capped, keyed := c.maxOrders > 0, slot != "" || c.cooldown > 0;
            var counter := Counter(t1 / 86400, id.account);
            var key := if slot != "" then Slot(t3 / 86400, id.account, symbol, slot) else Window(id.account, symbol);
            var granted := (capped ==> used < c.maxOrders) && (keyed ==> !Alive(w.redis, key, t3));
            var approval := Approval(Request(id.account, symbol, slot), t1 / 86400, if capped then used + 1 else 0, t3);
            && after.approvals == w.approvals + (if granted then [approval] else [])
            && (granted && keyed ==>
                  key in after.redis
                  && after.redis[key] == Cell(1, Some(t3 + if slot != "" then 172800 else c.cooldown)))
            && (capped ==> counter in after.redis && after.redis[counter].number == used + 1
                           && (!Alive(w.redis, counter, t1) ==> after.redis[counter].expires == Some(t2 + 172800)))
            && (forall k :: (k == key && granted && keyed) || (k == counter && capped)
                            || ((k in after.redis <==> k in w.redis)
                                && (k in w.redis ==> after.redis[k] == w.redis[k])))
  {
    var k := Counter(DayOf(t1), id.account);
    var marked := Apply(c, Apply(c, w, Count(id, symbol, slot, t1, false)), Expire(id, t2, false));
    CountedAlone(c, w, id, symbol, slot, t1, t2);
    hide Apply;
    ClaimedAlone(c, w.redis, marked, id, t3, k);
    forall other | other != k
      ensures other in marked.redis <==> other in w.redis
      ensures other in w.redis ==> marked.redis[other] == w.redis[other]
    {
      SpareAlike(w.redis, marked.redis, k, other);
    }
  }

  /** The first two commands: the counter, and the call if it is below the cap. */
  lemma {:induction false} CountedAlone(c: Config, w: World, id: CallId, symbol: string, slot: string, t1: nat, t2: nat)
    requires id !in w.calls
    ensures var marked := Apply(c, Apply(c, w, Count(id, symbol, slot, t1, false)), Expire(id, t2, false));
            var used, k := UsedOn(w.redis, id.account, t1), Counter(DayOf(t1), id.account);
            && marked.approvals == w.approvals
            && (c.maxOrders <= 0 ==> marked.redis == w.redis)
            && (c.maxOrders > 0 ==> k in marked.redis && marked.redis[k].number == used + 1
                                    && (!Alive(w.redis, k, t1) ==> marked.redis[k].expires == Some(t2 + 172800)))
            && marked.redis - {k} == w.redis - {k}
            && marked.calls == if c.maxOrders <= 0 || used < c.maxOrders
                               then w.calls[id := NeedsClaim(Request(id.account, symbol, slot), DayOf(t1),
                                                             if c.maxOrders <= 0 then 0 else used + 1)]
                               else w.calls
  {
  }

  /** The claim. */
  lemma {:induction false} ClaimedAlone(c: Config, r: Redis, w: World, id: CallId, now: nat, spare: StoredKey)
    requires spare.Counter? && r - {spare} == w.redis - {spare}
    requires id in w.calls ==> w.calls[id].NeedsClaim?
    ensures var after := Apply(c, w, Claim(id, now, false));
            if id !in w.calls then after == w
            else
              var p := w.calls[id];
              var keyed := p.request.slot != "" || c.cooldown > 0;
              var key := if p.request.slot != "" then Slot(now / 86400, p.request.account, p.request.symbol,
                                                           p.request.slot)
                         else Window(p.request.account, p.request.symbol);
              var granted, ttl := keyed ==> !Alive(r, key, now), if p.request.slot != "" then 172800 else c.cooldown;
              && (key in r <==> key in w.redis) && (key in r ==> r[key] == w.redis[key])
              && after.approvals == w.approvals + (if granted then [Approval(p.request, p.day, p.ticket, now)] else [])
              && after.redis == if granted && keyed
                                then w.redis[key := Cell(1, Some(now + ttl))] else w.redis
  {
    if id in w.calls {
      var p := w.calls[id];
      SpareAlike(r, w.redis, spare,
                 if p.request.slot != "" then Slot(DayOf(now), p.request.account, p.request.symbol, p.request.slot)
                 else Window(p.request.account, p.request.symbol));
    }
  }

  lemma {:induction false} SpareAlike(r: Redis, r': Redis, spare: StoredKey, k: StoredKey)
    requires r - {spare} == r' - {spare} && k != spare
    ensures k in r <==> k in r'
    ensures k in r ==> r'[k] == r[k]
  {
    assert k in r <==> k in r - {spare};
    assert k in r' <==> k in r' - {spare};
    if k in r {
      assert (r - {spare})[k] == r[k];
      assert k in r - {spare} && (r' - {spare})[k] == r'[k];
    }
  }

  // ----- accounts do not interfere -----

  function Owner(k: StoredKey): string {
    match k case Counter(_, a) => a case Slot(_, a, _, _) => a case Window(a, _) => a
  }

  /** The steps of one account's calls. */
  function Only(steps: seq<Step>, account: string): seq<Step> {
    if steps == [] then []
    else
      var before, last := Only(steps[..|steps| - 1], account), steps[|steps| - 1];
      if last.id.account == account then before + [last] else before
  }

  function OwnApprovals(approvals: seq<Approval>, account: string): seq<Approval> {
    if approvals == [] then []
    else
      var before, last := OwnApprovals(approvals[..|approvals| - 1], account), approvals[|approvals| - 1];
      if last.request.account == account then before + [last] else before
  }

  /** The two worlds look alike to `account`: its keys, its calls, and its approvals. */
  ghost predicate AlikeTo(w: World, w': World, account: string) {
    && KeysAlike(w.redis, w'.redis, account)
    && CallsAlike(w.calls, w'.calls, account)
    && OwnApprovals(w.approvals, account) == OwnApprovals(w'.approvals, account)
  }

  ghost predicate KeysAlike(r: Redis, r': Redis, account: string) {
    forall k :: Owner(k) == account ==> (k in r <==> k in r') && (k in r ==> r[k] == r'[k])
  }

  ghost predicate CallsAlike(calls: map<CallId, Phase>, calls': map<CallId, Phase>, account: string) {
    forall id: CallId :: id.account == account
      ==> (id in calls <==> id in calls') && (id in calls ==> calls[id] == calls'[id])
  }

  /** Commands on one's own key see, and leave, the same. */
  lemma {:induction false} CommandsAlike(r: Redis, r': Redis, account: string, k: StoredKey, now: nat, ttl: nat)
    requires KeysAlike(r, r', account) && Owner(k) == account
    ensures Alive(r, k, now) <==> Alive(r', k, now)
    ensures KeysAlike(Incremented(r, k, now), Incremented(r', k, now), account)
    ensures Incremented(r, k, now)[k] == Incremented(r', k, now)[k]
    ensures KeysAlike(Expiring(r, k, now, ttl), Expiring(r', k, now, ttl), account)
    ensures KeysAlike(Claimed(r, k, now, ttl), Claimed(r', k, now, ttl), account)
  {
    assert k in r <==> k in r';
  }

  lemma {:induction false} CallAlike(calls: map<CallId, Phase>, calls': map<CallId, Phase>, account: string, id: CallId)
    requires CallsAlike(calls, calls', account) && id.account == account
    ensures id in calls <==> id in calls'
    ensures id in calls ==> calls[id] == calls'[id]
    ensures CallsAlike(calls - {id}, calls' - {id}, account)
  {
  }

  lemma {:induction false} CallMovesAlike(calls: map<CallId, Phase>, calls': map<CallId, Phase>, account: string,
                                          id: CallId, p: Phase)
    requires CallsAlike(calls, calls', account)
    ensures CallsAlike(calls[id := p], calls'[id := p], account)
  {
  }

  /** A call's request is its own account's. */
  ghost predicate OwnRequests(w: World) {
    forall id :: id in w.calls ==> w.calls[id].request.account == id.account
  }

  lemma {:induction false} OwnStepsKept(c: Config, w: World, s: Step)
    requires OwnRequests(w)
    ensures OwnRequests(Apply(c, w, s))
  {
    hide Incremented, Expiring, Claimed, Alive, ClaimKey, ClaimTtl;
  }

  lemma {:induction false} OneMoreApproval(approvals: seq<Approval>, a: Approval, account: string)
    ensures OwnApprovals(approvals + [a], account)
            == OwnApprovals(approvals, account) + if a.request.account == account then [a] else []
  {
    assert (approvals + [a])[..|approvals|] == approvals;
  }

  lemma {:induction false} OthersDoNotShow(c: Config, w: World, s: Step, account: string)
    requires OwnRequests(w) && s.id.account != account
    ensures AlikeTo(Apply(c, w, s), w, account)
  {
    var w' := Apply(c, w, s);
    if w'.approvals != w.approvals {
      OneMoreApproval(w.approvals, w'.approvals[|w.approvals|], account);
    }
  }

  lemma {:induction false} OwnCountAlike(c: Config, w: World, w': World, s: Step, account: string)
    requires AlikeTo(w, w', account) && s.id.account == account && s.Count?
    ensures AlikeTo(Apply(c, w, s), Apply(c, w', s), account)
  {
    hide OwnApprovals, KeysAlike, CallsAlike, Incremented, Expiring, Claimed, Alive;
    CallAlike(w.calls, w'.calls, account, s.id);
    CommandsAlike(w.redis, w'.redis, account, Counter(DayOf(s.now), account), s.now, 0);
    if s.id in Apply(c, w, s).calls {
      CallMovesAlike(w.calls, w'.calls, account, s.id, Apply(c, w, s).calls[s.id]);
    }
  }

  lemma {:induction false} OwnExpireAlike(c: Config, w: World, w': World, s: Step, account: string)
    requires AlikeTo(w, w', account) && s.id.account == account && (s.Expire? || s.Die?)
    ensures AlikeTo(Apply(c, w, s), Apply(c, w', s), account)
  {
    hide OwnApprovals, KeysAlike, CallsAlike, Incremented, Expiring, Claimed, Alive;
    CallAlike(w.calls, w'.calls, account, s.id);
    if s.id in w.calls {
      var p := w.calls[s.id];
      CommandsAlike(w.redis, w'.redis, account, Counter(p.day, account), s.now, DAY_KEY_TTL);
      CallMovesAlike(w.calls, w'.calls, account, s.id, NeedsClaim(p.request, p.day, p.ticket));
    }
  }

  lemma {:induction false} OwnClaimAlike(c: Config, w: World, w': World, s: Step, account: string)
    requires OwnRequests(w) && AlikeTo(w, w', account) && s.id.account == account && s.Claim?
    ensures AlikeTo(Apply(c, w, s), Apply(c, w', s), account)
  {
    hide OwnApprovals, KeysAlike, CallsAlike, Incremented, Expiring, Claimed, Alive, ClaimTtl;
    CallAlike(w.calls, w'.calls, account, s.id);
    if s.id in w.calls && w.calls[s.id].NeedsClaim? {
      var p := w.calls[s.id];
      var a := Approval(p.request, p.day, p.ticket, s.now);
      var ttl := ClaimTtl(c, p.request);
      CommandsAlike(w.redis, w'.redis, account, ClaimKey(p.request, s.now), s.now, if ttl > 0 then ttl else 0);
      OneMoreApproval(w.approvals, a, account);
      OneMoreApproval(w'.approvals, a, account);
    }
  }

  lemma {:induction false} OwnStepAlike(c: Config, w: World, w': World, s: Step, account: string)
    requires OwnRequests(w) && AlikeTo(w, w', account) && s.id.account == account
    ensures AlikeTo(Apply(c, w, s), Apply(c, w', s), account)
  {
    hide Apply, AlikeTo, KeysAlike, CallsAlike;
    match s {
      case Count(_, _, _, _, _) => OwnCountAlike(c, w, w', s, account);
      case Claim(_, _, _) => OwnClaimAlike(c, w, w', s, account);
      case Expire(_, _, _) => OwnExpireAlike(c, w, w', s, account);
      case Die(_, _) => OwnExpireAlike(c, w, w', s, account);
    }
  }

  lemma {:induction false} AlikeChains(u: World, v: World, w: World, account: string)
    requires AlikeTo(u, v, account) && AlikeTo(v, w, account)
    ensures AlikeTo(u, w, account)
  {
  }

  lemma {:induction false} RunOwnRequests(c: Config, steps: seq<Step>)
    ensures OwnRequests(Run(c, steps))
  {
    hide Apply;
    if steps != [] {
      RunOwnRequests(c, steps[..|steps| - 1]);
      OwnStepsKept(c, Run(c, steps[..|steps| - 1]), steps[|steps| - 1]);
    } else {
      assert Fresh.calls == map[];
    }
  }

  /** Removing every other account's commands leaves an account's keys, calls and approvals exactly as they were. */
  lemma {:induction false} AccountsAreIndependent(c: Config, steps: seq<Step>, account: string)
    ensures AlikeTo(Run(c, steps), Run(c, Only(steps, account)), account)
  {
    hide Apply, AlikeTo, OwnRequests;
    if steps == [] {
      AlikeItself(Fresh, account);
    } else {
      var before, last := steps[..|steps| - 1], steps[|steps| - 1];
      AccountsAreIndependent(c, before, account);
      RunOwnRequests(c, before);
      if last.id.account == account {
        var own := Only(before, account) + [last];
        assert own[..|own| - 1] == Only(before, account);
        OwnStepAlike(c, Run(c, before), Run(c, Only(before, account)), last, account);
      } else {
        OthersDoNotShow(c, Run(c, before), last, account);
        AlikeChains(Run(c, steps), Run(c, before), Run(c, Only(before, account)), account);
      }
    }
  }

  lemma {:induction false} AlikeItself(w: World, account: string)
    ensures AlikeTo(w, w, account)
  {
  }

  // ----- the limiter -----

  datatype Verdict = Proceed | DailyCapReached | CooldownActive

  /** One process's limiter over the shared keys; `approvals` is history. */
  class RedisRateLimiter {
    const config: Config
    var redis: Redis
    ghost var approvals: seq<Approval>

    constructor (config: Config)
      ensures this.config == config && redis == map[] && approvals == []
    {
      this.config := config;
      redis, approvals := map[], [];
    }

    /**
     `acquire`, uninterrupted, its three commands at instants `t1`, `t2` and `t3`: the same as the three steps of
     a call that nothing else interleaves with.
     */
    method Acquire(ticker: string, accountId: Option<string>, slot: Option<string>, t1: nat, t2: nat, t3: nat)
        returns (v: Verdict)
      modifies this
      ensures var r := Normalised(ticker, accountId, slot);
              var id := CallId(r.account, 0);
              var w1 := Apply(config, World(old(redis), map[], old(approvals)), Count(id, r.symbol, r.slot, t1, false));
              var w2 := Apply(config, w1, Expire(id, t2, false));
              var w3 := Apply(config, w2, Claim(id, t3, false));
              && redis == w3.redis && approvals == w3.approvals
              && (v == Proceed <==> |w3.approvals| == |old(approvals)| + 1)
              && (v == DailyCapReached <==> id !in w1.calls)
    {
      hide Strip, Upper;
      var r := Normalised(ticker, accountId, slot);
      var day, ticket := DayOf(t1), 0;
      if config.maxOrders > 0 {
        var k := Counter(day, r.account);
        redis := Incremented(redis, k, t1);
        ticket := redis[k].number;
        if ticket == 1 {
          redis := Expiring(redis, k, t2, DAY_KEY_TTL);
        }
        if ticket > config.maxOrders {
          return DailyCapReached;
        }
      }
      var k, ttl := ClaimKey(r, t3), ClaimTtl(config, r);
      if ttl > 0 {
        var held := Alive(redis, k, t3);
        redis := Claimed(redis, k, t3, ttl);
        if held {
          return CooldownActive;
        }
      }
      approvals := approvals + [Approval(r, day, ticket, t3)];
      return Proceed;
    }
  }
}
