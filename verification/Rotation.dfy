/**
 Account rotation (src/shrap/research/rotation.py, `recommend`). What two series compare to, a number of shared
 sessions and a z-score, is an input: `paired_edge` needs a square root.
 */
module Rotation {
  import opened Wrappers

  type Id = string

  datatype Slot = Slot(account: string, incumbent: Option<Id>)

  /** `paired_edge`: shared sessions, and z when it is defined. */
  datatype Edge = Edge(sessions: int, z: Option<real>)

  datatype Market = Market(candidates: seq<Id>, length: Id -> nat, edge: (Id, Option<Id>) -> Edge, minSessions: int,
                           threshold: real)

  datatype Pick = Pick(account: string, challenger: Option<Id>)

  /** A blank incumbent id reads as no incumbent. */
  function Holder(slot: Slot): Option<Id> {
    if slot.incumbent == Some("") then None else slot.incumbent
  }

  /** The challenger clears the bar against the slot's holder. */
  predicate Clears(m: Market, slot: Slot, c: Id) {
    && m.length(c) >= m.minSessions
    && m.edge(c, Holder(slot)).sessions >= m.minSessions
    && m.edge(c, Holder(slot)).z.Some?
    && m.edge(c, Holder(slot)).z.value >= m.threshold
  }

  function Score(m: Market, slot: Slot, c: Id): real {
    var z := m.edge(c, Holder(slot)).z;
    if z.Some? then z.value else 0.0
  }

  /** `best` is the first of the strongest eligible candidates among the first `n`, or None when there is none. */
  ghost predicate Strongest(m: Market, slot: Slot, taken: set<Id>, n: nat, best: Option<Id>)
    requires n <= |m.candidates|
  {
    match best
    case None => forall k :: 0 <= k < n ==> m.candidates[k] in taken || !Clears(m, slot, m.candidates[k])
    case Some(b) =>
      exists at :: 0 <= at < n && m.candidates[at] == b && b !in taken && Clears(m, slot, b)
                   && (forall k :: 0 <= k < n && m.candidates[k] !in taken && Clears(m, slot, m.candidates[k])
                                   ==> Score(m, slot, m.candidates[k]) <= Score(m, slot, b))
                   && (forall k :: 0 <= k < at && m.candidates[k] !in taken && Clears(m, slot, m.candidates[k])
                                   ==> Score(m, slot, m.candidates[k]) < Score(m, slot, b))
  }

  /** The inner loop: the strongest remaining challenger of one slot. */
  method BestFor(m: Market, slot: Slot, taken: set<Id>) returns (best: Option<Id>)
    ensures Strongest(m, slot, taken, |m.candidates|, best)
  {
    best := None;
    var n := 0;
    while n < |m.candidates|
      invariant 0 <= n <= |m.candidates| && Strongest(m, slot, taken, n, best)
    {
      var c := m.candidates[n];
      if c !in taken && Clears(m, slot, c) && (best.None? || Score(m, slot, c) > Score(m, slot, best.value)) {
        best := Some(c);
      }
      n := n + 1;
    }
  }

  ghost predicate Incumbents(slots: seq<Slot>, c: Id) {
    exists k :: 0 <= k < |slots| && Holder(slots[k]) == Some(c)
  }

  /** What was taken when slot `n` was considered: every incumbent, and the challengers of the slots before it. */
  ghost predicate TakenBefore(slots: seq<Slot>, picks: seq<Pick>, n: nat, taken: set<Id>) {
    n <= |picks| && forall c: Id :: c in taken
                      <==> Incumbents(slots, c) || exists k :: 0 <= k < n && picks[k].challenger == Some(c)
  }

  /** `{s.incumbent_id for s in slots if s.incumbent_id}`. */
  method Holders(slots: seq<Slot>) returns (held: set<Id>)
    ensures forall c: Id :: c in held <==> Incumbents(slots, c)
  {
    held := {};
    var k := 0;
    while k < |slots|
      invariant 0 <= k <= |slots|
      invariant forall c: Id :: c in held <==> exists j :: 0 <= j < k && Holder(slots[j]) == Some(c)
    {
      if Holder(slots[k]).Some? {
        held := held + {Holder(slots[k]).value};
      }
      k := k + 1;
    }
  }

  /**
   `recommend`: one recommendation per slot, in order. Each takes the strongest challenger that clears the threshold
   against its holder and is neither a holder nor taken by an earlier slot; none exactly when there is no such one.
   */
  method Recommend(m: Market, slots: seq<Slot>) returns (picks: seq<Pick>)
    ensures |picks| == |slots| && forall n :: 0 <= n < |slots| ==> picks[n].account == slots[n].account
    ensures forall n :: 0 <= n < |slots| ==> GreedyAt(m, slots, picks, n)
  {
    var taken := Holders(slots);
    picks := [];
    while |picks| < |slots|
      invariant |picks| <= |slots|
      invariant forall n :: 0 <= n < |picks| ==> picks[n].account == slots[n].account && GreedyAt(m, slots, picks, n)
      invariant TakenBefore(slots, picks, |picks|, taken)
    {
      ghost var before, was := picks, taken;
      var n := |picks|;
      var best := BestFor(m, slots[n], taken);
      picks := picks + [Pick(slots[n].account, best)];
      if best.Some? {
        taken := taken + {best.value};
      }
      TakenKept(slots, before, picks, was, taken);
      forall k | 0 <= k < |picks| ensures GreedyAt(m, slots, picks, k) {
        if k < n {
          GreedyKept(m, slots, before, picks, k);
        }
      }
    }
  }

  /** Slot `n` chose the strongest of what was left to it. */
  ghost predicate GreedyAt(m: Market, slots: seq<Slot>, picks: seq<Pick>, n: nat) {
    n < |slots| && n < |picks|
    && exists taken: set<Id> :: TakenBefore(slots, picks, n, taken)
         && Strongest(m, slots[n], taken, |m.candidates|, picks[n].challenger)
  }

  lemma {:induction false} TakenKept(slots: seq<Slot>, before: seq<Pick>, picks: seq<Pick>, was: set<Id>,
                                     taken: set<Id>)
    requires TakenBefore(slots, before, |before|, was) && |picks| == |before| + 1 && picks[..|before|] == before
    requires var last := picks[|before|].challenger; taken == if last.Some? then was + {last.value} else was
    ensures TakenBefore(slots, picks, |picks|, taken) && TakenBefore(slots, picks, |before|, was)
  {
    var n := |before|;
    assert forall k :: 0 <= k < n ==> picks[k] == before[k];
    forall c: Id
      ensures (exists k :: 0 <= k < n + 1 && picks[k].challenger == Some(c))
              <==> (exists k :: 0 <= k < n && before[k].challenger == Some(c)) || picks[n].challenger == Some(c)
    {
      if exists k :: 0 <= k < n && before[k].challenger == Some(c) {
        var k :| 0 <= k < n && before[k].challenger == Some(c);
        assert picks[k].challenger == Some(c);
      }
    }
  }

  lemma {:induction false} GreedyKept(m: Market, slots: seq<Slot>, before: seq<Pick>, picks: seq<Pick>, k: nat)
    requires k < |before| && GreedyAt(m, slots, before, k) && |picks| >= |before| && picks[..|before|] == before
    ensures GreedyAt(m, slots, picks, k)
  {
    hide Strongest;
    var taken: set<Id> :| TakenBefore(slots, before, k, taken)
      && Strongest(m, slots[k], taken, |m.candidates|, before[k].challenger);
    assert forall j :: 0 <= j <= k ==> picks[j] == before[j];
    assert TakenBefore(slots, picks, k, taken);
  }

  /** Candidate `c` may take slot `n`: it is free, and long enough and strong enough against the slot's incumbent. */
  ghost predicate MayTake(m: Market, slots: seq<Slot>, picks: seq<Pick>, n: nat, c: Id)
    requires n < |slots| && n <= |picks|
  {
    var blank := slots[n].incumbent.None? || slots[n].incumbent.value == "";
    var edge := m.edge(c, if blank then None else slots[n].incumbent);
    && c in m.candidates
    && (forall k :: 0 <= k < |slots| && slots[k].incumbent == Some(c) ==> c == "")
    && (forall k :: 0 <= k < n ==> picks[k].challenger != Some(c))
    && !(m.length(c) < m.minSessions) && !(edge.sessions < m.minSessions)
    && edge.z.Some? && !(edge.z.value < m.threshold)
  }

  /**
   Where the choice was greedy: a slot stays as it is exactly when nobody may take it, and else the strongest does.
   */
  lemma {:induction false} PicksExactly(m: Market, slots: seq<Slot>, picks: seq<Pick>, n: nat)
    requires n < |picks| == |slots| && GreedyAt(m, slots, picks, n)
    ensures picks[n].challenger.None? <==> forall c <- m.candidates :: !MayTake(m, slots, picks, n, c)
    ensures picks[n].challenger.Some? ==>
              var b := picks[n].challenger.value;
              MayTake(m, slots, picks, n, b)
              && forall c <- m.candidates :: MayTake(m, slots, picks, n, c) ==>
                   Strength(m, slots[n], c) <= Strength(m, slots[n], b)
  {
    var taken: set<Id> :| TakenBefore(slots, picks, n, taken)
      && Strongest(m, slots[n], taken, |m.candidates|, picks[n].challenger);
    forall c | c in m.candidates ensures MayTake(m, slots, picks, n, c) <==> c !in taken && Clears(m, slots[n], c) {
      assert Incumbents(slots, c) <==> exists k :: 0 <= k < |slots| && slots[k].incumbent == Some(c) && c != "";
    }
  }

  /** The z-score the challenger is ranked by. */
  function Strength(m: Market, slot: Slot, c: Id): real {
    var edge := m.edge(c, if slot.incumbent.None? || slot.incumbent.value == "" then None else slot.incumbent);
    if edge.z.Some? then edge.z.value else 0.0
  }

  /** A challenger is used for at most one slot, holds none already, and clears the threshold where it is used. */
  lemma {:induction false} EachChallengerOnce(m: Market, slots: seq<Slot>, picks: seq<Pick>, j: nat, k: nat)
    requires j < k < |picks| == |slots| && GreedyAt(m, slots, picks, k)
    requires picks[k].challenger.Some?
    ensures picks[j].challenger != picks[k].challenger
    ensures !Incumbents(slots, picks[k].challenger.value) && Clears(m, slots[k], picks[k].challenger.value)
  {
    var taken: set<Id> :| TakenBefore(slots, picks, k, taken)
      && Strongest(m, slots[k], taken, |m.candidates|, picks[k].challenger);
  }
}
