/**
 An intent whose decision could not be published is handled again (src/shrap/risk_compliance/pre_trade_checker_agent.py,
 `process_intent_event` and `poll_once`), and asks the rate limiter a second time. The two handlings may be any time
 apart, and other calls of the limiter interleave with them in any way.
 */
module IntentRetry {
  import opened Wrappers
  import opened PreTrade
  import RateLimit

  type Limiter = RateLimit.World
  type Config = RateLimit.Config
  type Step = RateLimit.Step

  /** What the limiter's commands do, in order. */
  function RunFrom(c: Config, w: Limiter, steps: seq<Step>): Limiter
    decreases |steps|
  {
    if steps == [] then w else RunFrom(c, RateLimit.Apply(c, w, steps[0]), steps[1..])
  }

  /** The call's claim is next, for this request. */
  predicate Asks(w: Limiter, s: Step, r: RateLimit.Request) {
    s.Claim? && s.id in w.calls && w.calls[s.id].NeedsClaim? && w.calls[s.id].request == r
  }

  /** The claim is granted and its reply arrives. */
  predicate Granted(c: Config, w: Limiter, s: Step) {
    |RateLimit.Apply(c, w, s).approvals| == |w.approvals| + 1
  }

  /** The claim sets a key that expires after `ttl`, whether or not its reply arrives. */
  predicate Claims(c: Config, w: Limiter, s: Step, r: RateLimit.Request) {
    Asks(w, s, r) && RateLimit.ClaimTtl(c, r) > 0 && !RateLimit.Alive(w.redis, RateLimit.ClaimKey(r, s.now), s.now)
  }

  /** The rate gate of one handling. */
  function RateGate(granted: bool): Gate {
    if granted then Passes else Vetoes("rate guardrail")
  }

  /** The claim is still held. */
  predicate Held(w: Limiter, k: RateLimit.StoredKey, until: nat) {
    !k.Counter? && k in w.redis && w.redis[k].expires == Some(until)
  }

  lemma {:induction false} ClaimIsHeld(c: Config, w: Limiter, s: Step, r: RateLimit.Request)
    requires Claims(c, w, s, r)
    ensures Held(RateLimit.Apply(c, w, s), RateLimit.ClaimKey(r, s.now), s.now + RateLimit.ClaimTtl(c, r))
  {
  }

  /** Until it expires, no command of any call touches it. */
  lemma {:induction false} StaysHeld(c: Config, w: Limiter, steps: seq<Step>, k: RateLimit.StoredKey, until: nat)
    requires Held(w, k, until) && forall i :: 0 <= i < |steps| ==> steps[i].now < until
    ensures Held(RunFrom(c, w, steps), k, until)
    decreases |steps|
  {
    if steps != [] {
      StepKeepsHeld(c, w, steps[0], k, until);
      StaysHeld(c, RateLimit.Apply(c, w, steps[0]), steps[1..], k, until);
    }
  }

  lemma {:induction false} StepKeepsHeld(c: Config, w: Limiter, s: Step, k: RateLimit.StoredKey, until: nat)
    requires Held(w, k, until) && s.now < until
    ensures Held(RateLimit.Apply(c, w, s), k, until)
  {
  }

  /**
   The second handling of an intent whose first claimed its key, with any traffic between: while that key is alive
   the limiter refuses, so what is published is a veto, however often all other gates approved the intent.
   */
  lemma {:induction false} AbandonedClaimVetoes(c: Config, w: Limiter, first: Step, between: seq<Step>, second: Step,
                                                r: RateLimit.Request, p: Policy, i: Intent, tier3: Gate, a: Portfolio)
    requires Claims(c, w, first, r)
    requires Asks(RunFrom(c, RateLimit.Apply(c, w, first), between), second, r)
    requires RateLimit.ClaimKey(r, second.now) == RateLimit.ClaimKey(r, first.now)
    requires forall s <- between + [second] :: s.now < first.now + RateLimit.ClaimTtl(c, r)
    ensures var granted := Granted(c, RunFrom(c, RateLimit.Apply(c, w, first), between), second);
            !granted && !Decided(p, i, tier3, a, RateGate(granted)).approved
  {
    hide Check;
    var k, until := RateLimit.ClaimKey(r, first.now), first.now + RateLimit.ClaimTtl(c, r);
    ClaimIsHeld(c, w, first, r);
    forall j | 0 <= j < |between| ensures between[j].now < until {
      assert between[j] in between + [second];
    }
    assert second in between + [second];
    StaysHeld(c, RateLimit.Apply(c, w, first), between, k, until);
  }

  /** On one day a slot's key is always still alive. */
  lemma {:induction false} SlotOutlivesTheDay(c: Config, r: RateLimit.Request, t: nat, u: nat)
    requires r.slot != "" && RateLimit.DayOf(t) == RateLimit.DayOf(u)
    ensures RateLimit.ClaimKey(r, u) == RateLimit.ClaimKey(r, t) && u < t + RateLimit.ClaimTtl(c, r)
  {
    RateLimit.DayBounds(t);
    RateLimit.DayBounds(u);
  }

  /** What the other commands leave alone: every claim. */
  ghost predicate SameClaims(w: Limiter, w': Limiter) {
    forall k: RateLimit.StoredKey :: !k.Counter? ==>
      (k in w.redis <==> k in w'.redis) && (k in w.redis ==> w'.redis[k] == w.redis[k])
  }

  lemma {:induction false} OnlyClaimsClaim(c: Config, w: Limiter, steps: seq<Step>)
    requires forall s <- steps :: !s.Claim?
    ensures SameClaims(w, RunFrom(c, w, steps))
    decreases |steps|
  {
    if steps != [] {
      assert steps[0] in steps;
      NoClaim(c, w, steps[0]);
      OnlyClaimsClaim(c, RateLimit.Apply(c, w, steps[0]), steps[1..]);
    }
  }

  lemma {:induction false} NoClaim(c: Config, w: Limiter, s: Step)
    requires !s.Claim?
    ensures SameClaims(w, RateLimit.Apply(c, w, s))
  {
  }

  lemma {:induction false} ClaimLeavesOthers(c: Config, w: Limiter, s: Step, r: RateLimit.Request,
                                             k: RateLimit.StoredKey)
    requires Claims(c, w, s, r) && k != RateLimit.ClaimKey(r, s.now)
    ensures k in RateLimit.Apply(c, w, s).redis <==> k in w.redis
    ensures k in w.redis ==> RateLimit.Apply(c, w, s).redis[k] == w.redis[k]
  {
  }

  /**
   With no other claim between: the second handling's claim is granted exactly when the first's key is not the one it
   asks for, or has expired; and then what is published is what all other gates decided.
   */
  lemma {:induction false} RetriedExactly(c: Config, w: Limiter, first: Step, between: seq<Step>, second: Step,
                                          r: RateLimit.Request, p: Policy, i: Intent, tier3: Gate, a: Portfolio)
    requires Claims(c, w, first, r) && forall s <- between :: !s.Claim?
    requires Asks(RunFrom(c, RateLimit.Apply(c, w, first), between), second, r) && !second.lost
    requires RateLimit.ClaimKey(r, second.now) != RateLimit.ClaimKey(r, first.now) ==>
               !RateLimit.Alive(w.redis, RateLimit.ClaimKey(r, second.now), second.now)
    ensures var granted := Granted(c, RunFrom(c, RateLimit.Apply(c, w, first), between), second);
            && (granted <==> RateLimit.ClaimKey(r, second.now) != RateLimit.ClaimKey(r, first.now)
                             || first.now + RateLimit.ClaimTtl(c, r) <= second.now)
            && (Decided(p, i, tier3, a, RateGate(granted)).approved
                <==> granted && Decided(p, i, tier3, a, Passes).approved)
  {
    hide Check;
    var k := RateLimit.ClaimKey(r, second.now);
    ClaimIsHeld(c, w, first, r);
    OnlyClaimsClaim(c, RateLimit.Apply(c, w, first), between);
    if k != RateLimit.ClaimKey(r, first.now) {
      ClaimLeavesOthers(c, w, first, r, k);
    }
    GrantedExactly(c, RunFrom(c, RateLimit.Apply(c, w, first), between), second, r);
  }

  lemma {:induction false} GrantedExactly(c: Config, w: Limiter, s: Step, r: RateLimit.Request)
    requires Asks(w, s, r) && RateLimit.ClaimTtl(c, r) > 0 && !s.lost
    ensures Granted(c, w, s) <==> !RateLimit.Alive(w.redis, RateLimit.ClaimKey(r, s.now), s.now)
  {
  }

  /** Two calls for one exit: the first is granted its order, and the second, for the same intent, is refused. */
  lemma {:induction false} AnIntentIsNeverSent()
    ensures exists c: Config, w: Limiter, first: Step, second: Step, r ::
              && w == RunFrom(c, RateLimit.Fresh, [RateLimit.Count(RateLimit.CallId("A", 0), "U", "", 0, false)])
              && Granted(c, w, first) && Claims(c, w, first, r)
              && var between := [RateLimit.Count(RateLimit.CallId("A", 1), "U", "", 60, false)];
                 && Asks(RunFrom(c, RateLimit.Apply(c, w, first), between), second, r)
                 && !Granted(c, RunFrom(c, RateLimit.Apply(c, w, first), between), second)
  {
    var c, r := RateLimit.Config(0, 300), RateLimit.Request("A", "U", "");
    var one, two := RateLimit.CallId("A", 0), RateLimit.CallId("A", 1);
    var asked, again := RateLimit.Count(one, "U", "", 0, false), RateLimit.Count(two, "U", "", 60, false);
    var w := RateLimit.Apply(c, RateLimit.Fresh, asked);
    assert RunFrom(c, RateLimit.Fresh, [asked]) == RunFrom(c, w, []) == w by { assert [asked][1..] == []; }
    var first, second := RateLimit.Claim(one, 0, false), RateLimit.Claim(two, 60, false);
    var w1 := RateLimit.Apply(c, w, first);
    var w2 := RateLimit.Apply(c, w1, again);
    assert RunFrom(c, w1, [again]) == RunFrom(c, w2, []) == w2 by { assert [again][1..] == []; }
    assert Claims(c, w, first, r) && Granted(c, w, first);
    ClaimIsHeld(c, w, first, r);
    assert Asks(w2, second, r);
    GrantedExactly(c, w2, second, r);
  }
}
