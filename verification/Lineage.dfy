/**
 Printing one idea's whole family (src/shrap/research/strategy_stage_cli.py, `render_lineage`). Each line is
 kept as the strategy it shows and its indentation; the surrounding text is left out.
 */
module Lineage {
  import opened Wrappers
  import opened Registry

  datatype Line = Line(id: Id, depth: nat)

  /** The records handed over: one row each, in any order. */
  ghost predicate Records(rows: map<Id, Row>, order: seq<Id>) {
    && ParentsFirst(rows)
    && (forall k :: 0 <= k < |order| ==> order[k] in rows)
    && (forall j, k :: 0 <= j < k < |order| ==> order[j] != order[k])
  }

  /** `by_parent.get(parent, [])`. */
  function Children(rows: map<Id, Row>, order: seq<Id>, parent: Option<Id>): (kids: seq<Id>)
    requires forall k :: 0 <= k < |order| ==> order[k] in rows
    ensures forall k :: 0 <= k < |kids| ==> kids[k] in order && rows[kids[k]].parent == parent
  {
    if order == [] then []
    else
      var before, last := Children(rows, order[..|order| - 1], parent), order[|order| - 1];
      if rows[last].parent == parent then before + [last] else before
  }

  /** A bound above every insertion number. */
  ghost predicate Bounded(rows: map<Id, Row>, top: nat) {
    forall x :: x in rows ==> rows[x].born < top
  }

  /** Children of `parent` were inserted at `floor` or later. */
  ghost predicate FloorOf(rows: map<Id, Row>, parent: Option<Id>, floor: nat) {
    forall x :: x in rows && rows[x].parent == parent ==> floor <= rows[x].born
  }

  /** The recursive walk, from the children of `parent` on. */
  ghost function Walk(rows: map<Id, Row>, order: seq<Id>, parent: Option<Id>, depth: nat, floor: nat,
                      top: nat): seq<Line>
    requires Records(rows, order) && Bounded(rows, top) && FloorOf(rows, parent, floor)
    decreases if floor <= top then top - floor else 0, 1, 0
  {
    WalkKids(rows, order, Children(rows, order, parent), depth, floor, top)
  }

  ghost function WalkKids(rows: map<Id, Row>, order: seq<Id>, kids: seq<Id>, depth: nat, floor: nat,
                          top: nat): seq<Line>
    requires Records(rows, order) && Bounded(rows, top)
    requires forall k :: 0 <= k < |kids| ==> kids[k] in order && floor <= rows[kids[k]].born
    decreases if floor <= top then top - floor else 0, 0, |kids|
  {
    if kids == [] then []
    else
      [Line(kids[0], depth)]
      + Walk(rows, order, Some(kids[0]), depth + 1, rows[kids[0]].born + 1, top)
      + WalkKids(rows, order, kids[1..], depth, floor, top)
  }

  /** The keys of `by_parent`, in the order they were first met. */
  function Parents(rows: map<Id, Row>, order: seq<Id>): (parents: seq<Option<Id>>)
    requires forall k :: 0 <= k < |order| ==> order[k] in rows
  {
    if order == [] then []
    else
      var before, p := Parents(rows, order[..|order| - 1]), rows[order[|order| - 1]].parent;
      if p in before then before else before + [p]
  }

  function Flat(ids: seq<Id>): (lines: seq<Line>)
    ensures |lines| == |ids| && forall k :: 0 <= k < |ids| ==> lines[k] == Line(ids[k], 0)
  {
    seq(|ids|, k requires 0 <= k < |ids| => Line(ids[k], 0))
  }

  /** Members whose parent is not among the records, grouped by that parent. */
  function OrphansUnder(rows: map<Id, Row>, order: seq<Id>, parents: seq<Option<Id>>): seq<Line>
    requires forall k :: 0 <= k < |order| ==> order[k] in rows
  {
    if parents == [] then []
    else
      var before, p := OrphansUnder(rows, order, parents[..|parents| - 1]), parents[|parents| - 1];
      if p.Some? && p.value !in order then before + Flat(Children(rows, order, p)) else before
  }

  function Orphans(rows: map<Id, Row>, order: seq<Id>): seq<Line>
    requires forall k :: 0 <= k < |order| ==> order[k] in rows
  {
    OrphansUnder(rows, order, Parents(rows, order))
  }

  ghost function Render(rows: map<Id, Row>, order: seq<Id>): seq<Line>
    requires Records(rows, order) && Bounded(rows, |rows|)
  {
    Walk(rows, order, None, 0, 0, |rows|) + Orphans(rows, order)
  }

  // ----- how often a strategy is printed -----

  function Times(lines: seq<Line>, x: Id): nat {
    if lines == [] then 0 else (if lines[0].id == x then 1 else 0) + Times(lines[1..], x)
  }

  lemma {:induction false} TimesConcat(a: seq<Line>, b: seq<Line>, x: Id)
    ensures Times(a + b, x) == Times(a, x) + Times(b, x)
  {
    if a == [] {
      assert a + b == b;
    } else {
      assert (a + b)[1..] == a[1..] + b;
      TimesConcat(a[1..], b, x);
    }
  }

  /** Walking up from `x` among the records, one meets a child of `parent`. */
  ghost predicate Below(rows: map<Id, Row>, order: seq<Id>, parent: Option<Id>, x: Id)
    requires Records(rows, order) && x in order
    decreases rows[x].born
  {
    || rows[x].parent == parent
    || (rows[x].parent.Some? && rows[x].parent.value in order && Below(rows, order, parent, rows[x].parent.value))
  }

  /** `k` is `x` or an ancestor of it. */
  ghost predicate OnChain(rows: map<Id, Row>, order: seq<Id>, k: Id, x: Id)
    requires Records(rows, order) && x in order
  {
    k == x || Below(rows, order, Some(k), x)
  }

  lemma {:induction false} AncestorsAreEarlier(rows: map<Id, Row>, order: seq<Id>, k: Id, x: Id)
    requires Records(rows, order) && x in order && Below(rows, order, Some(k), x)
    ensures k in rows && rows[k].born < rows[x].born
    decreases rows[x].born
  {
    if rows[x].parent != Some(k) {
      AncestorsAreEarlier(rows, order, k, rows[x].parent.value);
    }
  }

  /** The child of `parent` through which `x` is reached. */
  ghost function Via(rows: map<Id, Row>, order: seq<Id>, parent: Option<Id>, x: Id): (v: Id)
    requires Records(rows, order) && x in order && Below(rows, order, parent, x)
    ensures v in order && rows[v].parent == parent
    decreases rows[x].born
  {
    if rows[x].parent == parent then x else Via(rows, order, parent, rows[x].parent.value)
  }

  /** A child of `parent` is on `x`'s chain exactly when it is the one `x` is reached through. */
  lemma {:induction false} OneChildLeadsTo(rows: map<Id, Row>, order: seq<Id>, parent: Option<Id>, k: Id, x: Id)
    requires Records(rows, order) && x in order && k in order && rows[k].parent == parent
    ensures OnChain(rows, order, k, x) <==> Below(rows, order, parent, x) && k == Via(rows, order, parent, x)
    decreases rows[x].born
  {
    if rows[x].parent == parent {
      if k != x && Below(rows, order, Some(k), x) {
        if parent != Some(k) {
          AncestorsAreEarlier(rows, order, k, parent.value);
        }
        assert false;
      }
    } else if rows[x].parent.Some? && rows[x].parent.value in order {
      OneChildLeadsTo(rows, order, parent, k, rows[x].parent.value);
    }
  }

  /** How many of `kids` lead to `x`. */
  ghost function Leading(rows: map<Id, Row>, order: seq<Id>, kids: seq<Id>, x: Id): nat
    requires Records(rows, order) && x in order
  {
    if kids == [] then 0
    else (if OnChain(rows, order, kids[0], x) then 1 else 0) + Leading(rows, order, kids[1..], x)
  }

  lemma {:induction false} LeadingConcat(rows: map<Id, Row>, order: seq<Id>, a: seq<Id>, b: seq<Id>, x: Id)
    requires Records(rows, order) && x in order
    ensures Leading(rows, order, a + b, x) == Leading(rows, order, a, x) + Leading(rows, order, b, x)
  {
    if a == [] {
      assert a + b == b;
    } else {
      assert (a + b)[1..] == a[1..] + b;
      LeadingConcat(rows, order, a[1..], b, x);
    }
  }

  lemma {:induction false} ChildrenLead(rows: map<Id, Row>, order: seq<Id>, upTo: nat, parent: Option<Id>, x: Id)
    requires Records(rows, order) && x in order && upTo <= |order|
    ensures Leading(rows, order, Children(rows, order[..upTo], parent), x)
            == if Below(rows, order, parent, x) && Via(rows, order, parent, x) in order[..upTo] then 1 else 0
    decreases upTo
  {
    if upTo > 0 {
      var before, last := order[..upTo - 1], order[upTo - 1];
      assert order[..upTo][..upTo - 1] == before;
      assert order[..upTo] == before + [last];
      ChildrenLead(rows, order, upTo - 1, parent, x);
      assert last !in before;
      if rows[last].parent == parent {
        OneChildLeadsTo(rows, order, parent, last, x);
        LeadingConcat(rows, order, Children(rows, before, parent), [last], x);
        assert Leading(rows, order, [last], x) == if OnChain(rows, order, last, x) then 1 else 0;
      }
    }
  }

  lemma {:induction false} WalkPrints(rows: map<Id, Row>, order: seq<Id>, parent: Option<Id>, depth: nat, floor: nat,
                                      top: nat, x: Id)
    requires Records(rows, order) && Bounded(rows, top) && FloorOf(rows, parent, floor) && x in order
    ensures Times(Walk(rows, order, parent, depth, floor, top), x) == if Below(rows, order, parent, x) then 1 else 0
    decreases if floor <= top then top - floor else 0, 1, 0
  {
    var kids := Children(rows, order, parent);
    WalkKidsPrints(rows, order, kids, depth, floor, top, x);
    ChildrenLead(rows, order, |order|, parent, x);
    assert order[..|order|] == order;
  }

  lemma {:induction false} WalkKidsPrints(rows: map<Id, Row>, order: seq<Id>, kids: seq<Id>, depth: nat, floor: nat,
                                          top: nat, x: Id)
    requires Records(rows, order) && Bounded(rows, top) && x in order
    requires forall k :: 0 <= k < |kids| ==> kids[k] in order && floor <= rows[kids[k]].born
    ensures Times(WalkKids(rows, order, kids, depth, floor, top), x) == Leading(rows, order, kids, x)
    decreases if floor <= top then top - floor else 0, 0, |kids|
  {
    hide Records, FloorOf, ParentsFirst;
    if kids != [] {
      var k := kids[0];
      ChildFloor(rows, order, k);
      var head := [Line(k, depth)];
      var below := Walk(rows, order, Some(k), depth + 1, rows[k].born + 1, top);
      var rest := WalkKids(rows, order, kids[1..], depth, floor, top);
      WalkPrints(rows, order, Some(k), depth + 1, rows[k].born + 1, top, x);
      WalkKidsPrints(rows, order, kids[1..], depth, floor, top, x);
      TimesConcat(head + below, rest, x);
      TimesConcat(head, below, x);
      assert Times(head, x) == if k == x then 1 else 0;
      if k == x && Below(rows, order, Some(k), x) {
        AncestorsAreEarlier(rows, order, k, x);
      }
    }
  }

  // ----- indentation -----

  ghost predicate Indented(rows: map<Id, Row>, lines: seq<Line>)
    requires ParentsFirst(rows)
  {
    forall i :: 0 <= i < |lines| ==> lines[i].id in rows && lines[i].depth == Generation(rows, lines[i].id)
  }

  ghost predicate AllIn(lines: seq<Line>, order: seq<Id>) {
    forall i :: 0 <= i < |lines| ==> lines[i].id in order
  }

  lemma {:induction false} JoinLines(rows: map<Id, Row>, order: seq<Id>, head: Line, below: seq<Line>, rest: seq<Line>)
    requires ParentsFirst(rows) && head.id in rows && head.depth == Generation(rows, head.id) && head.id in order
    requires AllIn(below, order) && AllIn(rest, order) && Indented(rows, below) && Indented(rows, rest)
    ensures AllIn([head] + below + rest, order) && Indented(rows, [head] + below + rest)
  {
    hide Generation, ParentsFirst;
  }

  lemma {:induction false} WalkIndents(rows: map<Id, Row>, order: seq<Id>, kids: seq<Id>, depth: nat, floor: nat,
                                       top: nat)
    requires Records(rows, order) && Bounded(rows, top)
    requires forall k :: 0 <= k < |kids| ==> kids[k] in order && floor <= rows[kids[k]].born
    requires forall k :: 0 <= k < |kids| ==> Generation(rows, kids[k]) == depth
    ensures Indented(rows, WalkKids(rows, order, kids, depth, floor, top))
    ensures AllIn(WalkKids(rows, order, kids, depth, floor, top), order)
    decreases if floor <= top then top - floor else 0, 0, |kids|
  {
    if kids != [] {
      WalkIndents(rows, order, Children(rows, order, Some(kids[0])), depth + 1, rows[kids[0]].born + 1, top);
      WalkIndents(rows, order, kids[1..], depth, floor, top);
      var below := Walk(rows, order, Some(kids[0]), depth + 1, rows[kids[0]].born + 1, top);
      var rest := WalkKids(rows, order, kids[1..], depth, floor, top);
      assert AllIn(below, order) && Indented(rows, below);
      JoinLines(rows, order, Line(kids[0], depth), below, rest);
    }
  }

  // ----- orphans -----

  lemma {:induction false} ParentsAreDistinct(rows: map<Id, Row>, order: seq<Id>)
    requires forall k :: 0 <= k < |order| ==> order[k] in rows
    ensures var ps := Parents(rows, order);
            && (forall j, k :: 0 <= j < k < |ps| ==> ps[j] != ps[k])
            && (forall k :: 0 <= k < |order| ==> rows[order[k]].parent in ps)
            && (forall p :: p in ps ==> exists k :: 0 <= k < |order| && rows[order[k]].parent == p)
  {
    if order != [] {
      var before, last := order[..|order| - 1], order[|order| - 1];
      ParentsAreDistinct(rows, before);
      var ps := Parents(rows, order);
      forall p | p in ps ensures exists k :: 0 <= k < |order| && rows[order[k]].parent == p {
        if p in Parents(rows, before) {
          var k :| 0 <= k < |before| && rows[before[k]].parent == p;
          assert order[k] == before[k];
        } else {
          assert rows[order[|order| - 1]].parent == p;
        }
      }
      forall k | 0 <= k < |order| ensures rows[order[k]].parent in ps {
        assert k < |before| ==> order[k] == before[k];
      }
    }
  }

  /** Among distinct records, the children of `parent` list each of its children once. */
  lemma {:induction false} ChildrenOnce(rows: map<Id, Row>, order: seq<Id>, parent: Option<Id>, x: Id)
    requires forall k :: 0 <= k < |order| ==> order[k] in rows
    requires forall j, k :: 0 <= j < k < |order| ==> order[j] != order[k]
    ensures Times(Flat(Children(rows, order, parent)), x) == if x in order && rows[x].parent == parent then 1 else 0
  {
    if order != [] {
      var before, last := order[..|order| - 1], order[|order| - 1];
      assert order == before + [last] && last !in before;
      ChildrenOnce(rows, before, parent, x);
      if rows[last].parent == parent {
        var kids := Children(rows, before, parent);
        assert Flat(kids + [last]) == Flat(kids) + [Line(last, 0)];
        TimesConcat(Flat(kids), [Line(last, 0)], x);
        assert Times([Line(last, 0)], x) == if last == x then 1 else 0;
      }
    }
  }

  /** The record's parent is set and missing from the records. */
  predicate Orphaned(rows: map<Id, Row>, order: seq<Id>, x: Id) {
    x in order && x in rows && rows[x].parent.Some? && rows[x].parent.value !in order
  }

  lemma {:induction false} OrphansOnce(rows: map<Id, Row>, order: seq<Id>, parents: seq<Option<Id>>, x: Id)
    requires forall k :: 0 <= k < |order| ==> order[k] in rows
    requires forall j, k :: 0 <= j < k < |order| ==> order[j] != order[k]
    requires forall j, k :: 0 <= j < k < |parents| ==> parents[j] != parents[k]
    ensures Times(OrphansUnder(rows, order, parents), x)
            == if Orphaned(rows, order, x) && rows[x].parent in parents then 1 else 0
  {
    if parents != [] {
      var before, p := parents[..|parents| - 1], parents[|parents| - 1];
      assert parents == before + [p] && p !in before;
      OrphansOnce(rows, order, before, x);
      ChildrenOnce(rows, order, p, x);
      TimesConcat(OrphansUnder(rows, order, before), Flat(Children(rows, order, p)), x);
    }
  }

  /**
   Whatever records are handed over: a member is printed once if its chain of parents stays among them up to a root,
   or if its own parent is missing; otherwise, below an orphan, it is not printed at all.
   */
  lemma {:induction false} HiddenBelowOrphans(rows: map<Id, Row>, order: seq<Id>, x: Id)
    requires Records(rows, order) && Bounded(rows, |rows|)
    ensures Times(Render(rows, order), x)
            == if x in order && (Below(rows, order, None, x) || Orphaned(rows, order, x)) then 1 else 0
  {
    hide Walk, Times, Orphans, Below, Records, Bounded, Generation;
    WalkCount(rows, order, x);
    OrphanCount(rows, order, x);
    TimesConcat(Walk(rows, order, None, 0, 0, |rows|), Orphans(rows, order), x);
    if Orphaned(rows, order, x) {
      OrphansHaveNoRoot(rows, order, x);
    }
  }

  lemma {:induction false} WalkCount(rows: map<Id, Row>, order: seq<Id>, x: Id)
    requires Records(rows, order) && Bounded(rows, |rows|)
    ensures FloorOf(rows, None, 0) && forall k :: 0 <= k < |order| ==> order[k] in rows
    ensures Times(Walk(rows, order, None, 0, 0, |rows|), x)
            == if x in order && Below(rows, order, None, x) then 1 else 0
  {
    hide Walk, Times, Below, Bounded, Generation, ParentsFirst;
    if x in order {
      WalkPrints(rows, order, None, 0, 0, |rows|, x);
    } else {
      WalkStaysIn(rows, order);
      NeverPrinted(Walk(rows, order, None, 0, 0, |rows|), order, x);
    }
  }

  lemma {:induction false} OrphanCount(rows: map<Id, Row>, order: seq<Id>, x: Id)
    requires Records(rows, order)
    ensures Times(Orphans(rows, order), x) == if Orphaned(rows, order, x) then 1 else 0
  {
    hide Times, Children, OrphansUnder, ParentsFirst;
    ParentsAreDistinct(rows, order);
    OrphansOnce(rows, order, Parents(rows, order), x);
    if x in order {
      var k :| 0 <= k < |order| && order[k] == x;
      assert rows[order[k]].parent in Parents(rows, order);
    }
  }

  lemma {:induction false} OrphansHaveNoRoot(rows: map<Id, Row>, order: seq<Id>, x: Id)
    requires Records(rows, order) && Orphaned(rows, order, x)
    ensures !Below(rows, order, None, x)
  {
  }

  lemma {:induction false} WalkStaysIn(rows: map<Id, Row>, order: seq<Id>)
    requires Records(rows, order) && Bounded(rows, |rows|)
    ensures AllIn(Walk(rows, order, None, 0, 0, |rows|), order) && Indented(rows, Walk(rows, order, None, 0, 0, |rows|))
  {
    WalkIndents(rows, order, Children(rows, order, None), 0, 0, |rows|);
  }

  // ----- a lineage read from the registry -----

  lemma {:induction false} ChainStaysInside(rows: map<Id, Row>, order: seq<Id>, x: Id)
    requires Records(rows, order) && x in order
    requires forall y :: y in order && rows[y].parent.Some? ==> rows[y].parent.value in order
    ensures Below(rows, order, None, x)
    decreases rows[x].born
  {
    if rows[x].parent.Some? {
      ChainStaysInside(rows, order, rows[x].parent.value);
    }
  }

  lemma {:induction false} NoOrphans(rows: map<Id, Row>, order: seq<Id>, parents: seq<Option<Id>>)
    requires forall k :: 0 <= k < |order| ==> order[k] in rows
    requires forall p :: p in parents && p.Some? ==> p.value in order
    ensures OrphansUnder(rows, order, parents) == []
  {
    if parents != [] {
      NoOrphans(rows, order, parents[..|parents| - 1]);
    }
  }

  /** `order` is what `lineage(id)` returns, in some order. */
  ghost predicate Lists(rows: map<Id, Row>, id: Id, order: seq<Id>) {
    && (forall y: Id :: y in order <==> y in LineageOf(rows, id))
    && (forall j, k :: 0 <= j < k < |order| ==> order[j] != order[k])
  }

  /** Three or more generations below an original under the empty id. */
  ghost predicate Deep(rows: map<Id, Row>, x: Id)
    requires ParentsFirst(rows) && x in rows
  {
    Origin(rows, x) == "" && Generation(rows, x) >= 3
  }

  /**
   The page of any strategy of a reachable registry, in whatever order the query returns its lineage: the walk ends,
   and prints every member exactly once and nothing else, save that it does not print what descends three or more
   generations from the empty id. Unless the strategy itself descends from the empty id, no member is an orphan
   and each is indented by its generation.
   */
  lemma {:induction false} PrintsEachMemberOnce(calls: seq<Call>, id: Id, order: seq<Id>, x: Id)
    requires id in Run(Empty, calls).rows && Lists(Run(Empty, calls).rows, id, order)
    ensures var rows := Run(Empty, calls).rows;
            && Records(rows, order) && Bounded(rows, |rows|)
            && Times(Render(rows, order), x) == (if x in LineageOf(rows, id) && !Deep(rows, x) then 1 else 0)
            && (Origin(rows, id) != "" || id == ""
                ==> Indented(rows, Render(rows, order)) && Orphans(rows, order) == [])
  {
    hide Run, Replays, OneAccountEach, RootHeld, Walk, Render, Parents, OrphansUnder, Times, Indented, LineageOf;
    assert Inv(Empty) by { EmptyIsSound(); }
    RunKeeps(Empty, calls);
    var rows := Run(Empty, calls).rows;
    InRows(rows, id, order);
    HiddenBelowOrphans(rows, order, x);
    if x in order {
      MemberIsPrinted(rows, id, order, x);
    }
    if Origin(rows, id) != "" || id == "" {
      forall y | y in order && rows[y].parent.Some? ensures rows[y].parent.value in order {
        ParentIsMember(rows, id, order, y);
      }
      WholePage(rows, order);
    }
  }

  lemma {:induction false} InRows(rows: map<Id, Row>, id: Id, order: seq<Id>)
    requires Lists(rows, id, order)
    ensures forall y :: y in order ==> y in rows
  {
  }

  /** A lineage that does not lie below the empty id holds its members' parents. */
  lemma {:induction false} ParentIsMember(rows: map<Id, Row>, id: Id, order: seq<Id>, y: Id)
    requires RootsHeld(rows) && id in rows && Lists(rows, id, order) && (Origin(rows, id) != "" || id == "")
    requires y in order && y in rows && rows[y].parent.Some?
    ensures rows[y].parent.value in order
  {
    hide RootHeld, LineageOf;
    LineageMembers(rows, id, y);
    LineageMembers(rows, id, rows[y].parent.value);
  }

  /** A member is printed, through a root or as an orphan, unless it lies deep below the empty id. */
  lemma {:induction false} MemberIsPrinted(rows: map<Id, Row>, id: Id, order: seq<Id>, x: Id)
    requires RootsHeld(rows) && id in rows && Lists(rows, id, order) && Records(rows, order) && x in order
    ensures Below(rows, order, None, x) || Orphaned(rows, order, x) <==> !Deep(rows, x)
  {
    hide RootHeld, LineageOf;
    LineageMembers(rows, id, x);
    if Origin(rows, id) != "" || id == "" {
      forall y | y in order && rows[y].parent.Some? ensures rows[y].parent.value in order {
        ParentIsMember(rows, id, order, y);
      }
      ChainStaysInside(rows, order, x);
    } else {
      NoRootAmong(rows, id, order, x);
      var p := rows[x].parent.value;
      LineageMembers(rows, id, p);
    }
  }

  lemma {:induction false} NoRootAmong(rows: map<Id, Row>, id: Id, order: seq<Id>, x: Id)
    requires RootsHeld(rows) && id in rows && Lists(rows, id, order) && Records(rows, order) && x in order
    requires Origin(rows, id) == "" && id != ""
    ensures !Below(rows, order, None, x)
    decreases rows[x].born
  {
    hide RootHeld, LineageOf;
    LineageMembers(rows, id, x);
    if rows[x].parent.Some? && rows[x].parent.value in order {
      NoRootAmong(rows, id, order, rows[x].parent.value);
    }
  }

  lemma {:induction false} WholePage(rows: map<Id, Row>, order: seq<Id>)
    requires Records(rows, order) && Bounded(rows, |rows|)
    requires forall y :: y in order && rows[y].parent.Some? ==> rows[y].parent.value in order
    ensures Orphans(rows, order) == [] && Indented(rows, Render(rows, order))
  {
    hide Walk;
    ParentsAreDistinct(rows, order);
    forall p | p in Parents(rows, order) && p.Some? ensures p.value in order {
      var k :| 0 <= k < |order| && rows[order[k]].parent == p;
      assert order[k] in order;
    }
    NoOrphans(rows, order, Parents(rows, order));
    var walk := Walk(rows, order, None, 0, 0, |rows|);
    assert Render(rows, order) == walk + [] == walk;
    WalkStaysIn(rows, order);
  }

  /** Every member of the page is printed. */
  ghost predicate PrintedWhole(rows: map<Id, Row>, order: seq<Id>)
    requires Records(rows, order) && Bounded(rows, |rows|)
  {
    forall x :: x in order ==> Times(Render(rows, order), x) == 1
  }

  lemma {:induction false} ListsAll(s: set<Id>) returns (order: seq<Id>)
    ensures (forall y: Id :: y in order <==> y in s) && (forall j, k :: 0 <= j < k < |order| ==> order[j] != order[k])
    decreases s
  {
    order := [];
    if s != {} {
      var y :| y in s;
      var rest := ListsAll(s - {y});
      order := rest + [y];
      assert forall z: Id :: z in order <==> z in rest || z == y;
    }
  }

  /** Every lineage is printed whole exactly when nothing descends three or more generations from the empty id. */
  lemma {:induction false} EveryPageIsWhole(calls: seq<Call>)
    ensures var rows := Run(Empty, calls).rows;
            && ParentsFirst(rows)
            && ((forall id, order :: id in rows && Lists(rows, id, order) ==>
                   Records(rows, order) && Bounded(rows, |rows|) && PrintedWhole(rows, order))
                <==> (forall x :: x in rows ==> !Deep(rows, x)))
  {
    hide Run, Replays, OneAccountEach, RootHeld, Render, Times, LineageOf, Deep;
    assert Inv(Empty) by { EmptyIsSound(); }
    RunKeeps(Empty, calls);
    var rows := Run(Empty, calls).rows;
    forall id, order | id in rows && Lists(rows, id, order)
      ensures Records(rows, order) && Bounded(rows, |rows|)
      ensures PrintedWhole(rows, order) <==> forall x :: x in order ==> x in rows && !Deep(rows, x)
    {
      InRows(rows, id, order);
      forall x | x in order ensures Times(Render(rows, order), x) == if Deep(rows, x) then 0 else 1 {
        PrintsEachMemberOnce(calls, id, order, x);
      }
    }
    forall x | x in rows && Deep(rows, x)
      ensures exists order :: Lists(rows, x, order) && !PrintedWhole(rows, order)
    {
      var order := ListsAll(LineageOf(rows, x));
      DeepIsMember(rows, x);
      assert Lists(rows, x, order) && x in order;
    }
  }

  lemma {:induction false} DeepIsMember(rows: map<Id, Row>, x: Id)
    requires RootsHeld(rows) && x in rows && Deep(rows, x)
    ensures x in LineageOf(rows, x)
  {
    LineageMembers(rows, x, x);
  }

  /** A registry of four accepted calls, and a page of it that leaves a member out. */
  lemma {:induction false} GrandchildIsLeftOut()
    ensures var rows := Run(Empty, FourUnderEmpty).rows;
            && "c" in rows && Lists(rows, "c", ["c", "d"]) && Records(rows, ["c", "d"]) && Bounded(rows, |rows|)
            && Times(Render(rows, ["c", "d"]), "d") == 0
  {
    hide Run, Times, Render, LineageOf;
    var rows := Run(Empty, FourUnderEmpty).rows;
    LineageUnderEmpty();
    assert "c"[0] != "d"[0];
    assert Lists(rows, "c", ["c", "d"]);
    RegistryContract(FourUnderEmpty);
    DIsDeep(rows);
    PrintsEachMemberOnce(FourUnderEmpty, "c", ["c", "d"], "d");
  }

  lemma {:induction false} DIsDeep(rows: map<Id, Row>)
    requires ParentsFirst(rows) && rows.Keys == {"", "b", "c", "d"}
    requires rows["b"].parent == Some("") && rows["c"].parent == Some("b") && rows["d"].parent == Some("c")
    requires Origin(rows, "") == ""
    ensures Deep(rows, "d")
  {
    assert Generation(rows, "b") >= 1 && Generation(rows, "c") >= 2;
    assert Origin(rows, "b") == "" && Origin(rows, "c") == "";
  }

  lemma {:induction false} NeverPrinted(lines: seq<Line>, order: seq<Id>, x: Id)
    requires AllIn(lines, order) && x !in order
    ensures Times(lines, x) == 0
  {
    if lines != [] {
      NeverPrinted(lines[1..], order, x);
    }
  }

  // ----- the rendering loop -----

  lemma {:induction false} ChildrenAppend(rows: map<Id, Row>, order: seq<Id>, i: nat)
    requires i < |order| && forall k :: 0 <= k < |order| ==> order[k] in rows
    ensures forall p: Option<Id> :: Children(rows, order[..i + 1], p)
              == Children(rows, order[..i], p) + if rows[order[i]].parent == p then [order[i]] else []
  {
    assert order[..i + 1][..i] == order[..i];
  }

  lemma {:induction false} ParentsAppend(rows: map<Id, Row>, order: seq<Id>, i: nat)
    requires i < |order| && forall k :: 0 <= k < |order| ==> order[k] in rows
    ensures var before, p := Parents(rows, order[..i]), rows[order[i]].parent;
            Parents(rows, order[..i + 1]) == if p in before then before else before + [p]
  {
    assert order[..i + 1][..i] == order[..i];
  }

  lemma {:induction false} WalkUnfolds(rows: map<Id, Row>, order: seq<Id>, kids: seq<Id>, i: nat, depth: nat,
                                       floor: nat, top: nat, before: seq<Line>)
    requires Records(rows, order) && Bounded(rows, top) && i < |kids|
    requires forall k :: 0 <= k < |kids| ==> kids[k] in order && floor <= rows[kids[k]].born
    requires kids[i] in rows && FloorOf(rows, Some(kids[i]), rows[kids[i]].born + 1)
    ensures before + WalkKids(rows, order, kids[i..], depth, floor, top)
            == before + [Line(kids[i], depth)]
               + Walk(rows, order, Some(kids[i]), depth + 1, rows[kids[i]].born + 1, top)
               + WalkKids(rows, order, kids[i + 1..], depth, floor, top)
  {
    hide Records, FloorOf, Walk, Bounded;
    assert kids[i..][0] == kids[i] && kids[i..][1..] == kids[i + 1..];
  }

  lemma {:induction false} ChildFloor(rows: map<Id, Row>, order: seq<Id>, x: Id)
    requires Records(rows, order) && x in order
    ensures x in rows && FloorOf(rows, Some(x), rows[x].born + 1)
  {
  }

  lemma {:induction false} KidsOf(rows: map<Id, Row>, order: seq<Id>, parent: Option<Id>, floor: nat)
    requires Records(rows, order) && FloorOf(rows, parent, floor)
    ensures forall k :: 0 <= k < |order| ==> order[k] in rows
    ensures var kids := Children(rows, order, parent);
            forall k :: 0 <= k < |kids| ==> kids[k] in order && kids[k] in rows && floor <= rows[kids[k]].born
  {
  }

  lemma {:induction false} NoKids(rows: map<Id, Row>, order: seq<Id>, depth: nat, floor: nat, top: nat)
    requires Records(rows, order) && Bounded(rows, top)
    ensures WalkKids(rows, order, [], depth, floor, top) == []
  {
  }

  /** One rendering: the grouping dictionary and the lines so far. */
  class LineagePage {
    var byParent: map<Option<Id>, seq<Id>>
    var keys: seq<Option<Id>>
    var lines: seq<Line>

    ghost predicate Grouped(rows: map<Id, Row>, order: seq<Id>)
      reads this
      requires forall k :: 0 <= k < |order| ==> order[k] in rows
    {
      && (forall p :: p in byParent ==> byParent[p] == Children(rows, order, p))
      && (forall p: Option<Id> :: p !in byParent ==> Children(rows, order, p) == [])
    }

    /** The dictionary's keys, in the order it was filled. */
    ghost predicate Keyed(rows: map<Id, Row>, order: seq<Id>)
      reads this
      requires forall k :: 0 <= k < |order| ==> order[k] in rows
    {
      keys == Parents(rows, order) && forall p :: p in keys <==> p in byParent
    }

    constructor (rows: map<Id, Row>, order: seq<Id>)
      requires forall k :: 0 <= k < |order| ==> order[k] in rows
      ensures Grouped(rows, order) && Keyed(rows, order) && lines == []
    {
      byParent, keys, lines := map[], [], [];
      new;
      var i := 0;
      while i < |order|
        invariant 0 <= i <= |order| && lines == []
        invariant Grouped(rows, order[..i]) && Keyed(rows, order[..i])
      {
        hide Children, Parents, Grouped, Keyed;
        Append(rows, order, i, order[i]);
        i := i + 1;
      }
      assert order[..i] == order;
    }

    /** `by_parent.setdefault(parent, []).append(record)`. */
    method Append(rows: map<Id, Row>, ghost order: seq<Id>, ghost i: nat, id: Id)
      requires i < |order| && order[i] == id && (forall k :: 0 <= k < |order| ==> order[k] in rows)
      requires Grouped(rows, order[..i]) && Keyed(rows, order[..i])
      modifies this`byParent, this`keys
      ensures Grouped(rows, order[..i + 1]) && Keyed(rows, order[..i + 1])
    {
      hide Children, Parents;
      var parent := rows[id].parent;
      ChildrenAppend(rows, order, i);
      ParentsAppend(rows, order, i);
      if parent !in byParent {
        byParent, keys := byParent[parent := []], keys + [parent];
      }
      byParent := byParent[parent := byParent[parent] + [id]];
    }

    method WalkFrom(rows: map<Id, Row>, order: seq<Id>, parent: Option<Id>, depth: nat, ghost floor: nat,
                    ghost top: nat)
      requires Records(rows, order) && Bounded(rows, top) && FloorOf(rows, parent, floor) && Grouped(rows, order)
      modifies this`lines
      ensures lines == old(lines) + Walk(rows, order, parent, depth, floor, top)
      decreases if floor <= top then top - floor else 0
    {
      hide Records, FloorOf, Children, WalkKids;
      var kids := if parent in byParent then byParent[parent] else [];
      KidsOf(rows, order, parent, floor);
      assert kids == Children(rows, order, parent);
      assert kids[0..] == kids;
      ghost var whole := old(lines) + Walk(rows, order, parent, depth, floor, top);
      var i := 0;
      while i < |kids|
        invariant 0 <= i <= |kids| && Grouped(rows, order)
        invariant lines + WalkKids(rows, order, kids[i..], depth, floor, top) == whole
      {
        ChildFloor(rows, order, kids[i]);
        WalkUnfolds(rows, order, kids, i, depth, floor, top, lines);
        lines := lines + [Line(kids[i], depth)];
        WalkFrom(rows, order, Some(kids[i]), depth + 1, rows[kids[i]].born + 1, top);
        i := i + 1;
      }
      NoKids(rows, order, depth, floor, top);
    }

    method AddFlat(children: seq<Id>)
      modifies this`lines
      ensures lines == old(lines) + Flat(children)
    {
      var j := 0;
      while j < |children|
        invariant 0 <= j <= |children|
        invariant lines == old(lines) + Flat(children[..j])
      {
        lines := lines + [Line(children[j], 0)];
        assert Flat(children[..j + 1]) == Flat(children[..j]) + [Line(children[j], 0)];
        j := j + 1;
      }
      assert children[..j] == children;
    }

    /** The loop over `by_parent.items()`. */
    method AddOrphans(rows: map<Id, Row>, order: seq<Id>)
      requires (forall k :: 0 <= k < |order| ==> order[k] in rows) && Grouped(rows, order) && Keyed(rows, order)
      modifies this`lines
      ensures lines == old(lines) + Orphans(rows, order)
    {
      hide Children, Parents;
      var i := 0;
      while i < |keys|
        invariant 0 <= i <= |keys| && Grouped(rows, order) && Keyed(rows, order)
        invariant lines == old(lines) + OrphansUnder(rows, order, keys[..i])
      {
        assert keys[..i + 1][..i] == keys[..i];
        var parent := keys[i];
        if parent.Some? && parent.value !in order {
          AddFlat(byParent[parent]);
        }
        i := i + 1;
      }
      assert keys[..i] == keys;
    }
  }

  lemma {:induction false} RootFloor(rows: map<Id, Row>, order: seq<Id>)
    requires Records(rows, order)
    ensures FloorOf(rows, None, 0) && forall k :: 0 <= k < |order| ==> order[k] in rows
  {
  }

  /** `render_lineage`. */
  method RenderLineage(rows: map<Id, Row>, order: seq<Id>) returns (lines: seq<Line>)
    requires Records(rows, order) && Bounded(rows, |rows|)
    ensures lines == Render(rows, order)
  {
    hide Records, Bounded, Walk, Orphans, Children, Parents;
    RootFloor(rows, order);
    var page := new LineagePage(rows, order);
    page.WalkFrom(rows, order, None, 0, 0, |rows|);
    page.AddOrphans(rows, order);
    lines := page.lines;
  }
}
