/**
 The strategy registry: a table of strategies, an append-only transition log, and lineage roots the
 proposer cannot choose (src/shrap/research/strategy_registry.py).
 */
module Registry {
  import opened Wrappers
  import opened Text

  type Id = string

  /** The eight lifecycle statuses; `Unlisted` is any other text a caller may pass. */
  datatype Status =
    | Hypothesis | Paper | SmallSizePaper | LivePaper | KillReview | KillReviewMike | Killed | Retired
    | Unlisted(text: string)

  const ActiveStages := {Hypothesis, Paper, SmallSizePaper, LivePaper}

  /** `ALLOWED_TRANSITIONS`. */
  function Allowed(from: Status): set<Status> {
    match from
    case Hypothesis => {Paper, KillReview, Killed, Retired}
    case Paper => {SmallSizePaper, KillReview, Killed, Retired}
    case SmallSizePaper => {LivePaper, KillReview, Killed, Retired}
    case LivePaper => {KillReview, Killed, Retired}
    case KillReview => {Killed, KillReviewMike} + ActiveStages
    case KillReviewMike => {Killed} + ActiveStages
    case Killed => {}
    case Retired => {}
    case Unlisted(_) => {}
  }

  /** A proposed strategy, with the fields the registry decides on. */
  datatype Record = Record(id: Id, name: string, version: int, specHash: string, status: Status,
                           parent: Option<Id>, derivedFrom: Option<string>, revisionReason: Option<string>)

  /** A row of `research.strategies`; `born` is its insertion number (history only). */
  datatype Row = Row(status: Status, parent: Option<Id>, root: Id, account: Option<string>,
                     name: string, version: int, specHash: string, born: nat)

  /** A row of `research.strategy_transitions`. */
  datatype Entry = Entry(id: Id, from: Option<Status>, to: Status)

  datatype State = State(rows: map<Id, Row>, log: seq<Entry>)

  const Empty := State(map[], [])

  datatype Error =
    | MustStartAsHypothesis | BadLineage | UnknownParent | UniqueViolation | NotFound | UnknownTarget
    | InvalidMove(from: Status, to: Status)

  datatype Outcome = Inserted | AlreadyRegistered | Moved(from: Status, to: Status) | Assigned | Refused(error: Error)

  datatype Step = Step(state: State, outcome: Outcome)

  // ----- the three writers -----

  /** `_validate_lineage`: an original carries no reason, a revision needs one and is not its own parent. */
  predicate LineageIsStated(r: Record) {
    match r.parent
    case None => r.revisionReason.None? && r.derivedFrom.None?
    case Some(p) => p != r.id && r.revisionReason.Some? && Strip(r.revisionReason.value) != ""
  }

  /** `row["lineage_root_id"] or row["strategy_id"]`. */
  function RootField(rows: map<Id, Row>, id: Id): Id
    requires id in rows
  {
    if rows[id].root != "" then rows[id].root else id
  }

  predicate Collides(rows: map<Id, Row>, r: Record) {
    exists x :: x in rows && (rows[x].specHash == r.specHash
                              || (rows[x].name == r.name && rows[x].version == r.version))
  }

  function NewRow(s: State, r: Record, root: Id): Row {
    Row(Hypothesis, r.parent, root, None, r.name, r.version, r.specHash, |s.rows|)
  }

  function Registered(s: State, r: Record): Step {
    if r.status != Hypothesis then Step(s, Refused(MustStartAsHypothesis))
    else if !LineageIsStated(r) then Step(s, Refused(BadLineage))
    else if r.parent.Some? && r.parent.value !in s.rows then Step(s, Refused(UnknownParent))
    else if r.id in s.rows then Step(s, AlreadyRegistered)
    else if Collides(s.rows, r) then Step(s, Refused(UniqueViolation))
    else
      var root := if r.parent.Some? then RootField(s.rows, r.parent.value) else r.id;
      Step(State(s.rows[r.id := NewRow(s, r, root)], s.log + [Entry(r.id, None, Hypothesis)]), Inserted)
  }

  function Transitioned(s: State, id: Id, to: Status, expected: Option<Status>): Step {
    if to.Unlisted? then Step(s, Refused(UnknownTarget))
    else if id !in s.rows then Step(s, Refused(NotFound))
    else
      var from := s.rows[id].status;
      if expected.Some? && from != expected.value then Step(s, Refused(InvalidMove(from, to)))
      else if to !in Allowed(from) then Step(s, Refused(InvalidMove(from, to)))
      else Step(State(s.rows[id := s.rows[id].(status := to)], s.log + [Entry(id, Some(from), to)]), Moved(from, to))
  }

  /** A blank account clears the assignment. */
  function Normalized(account: Option<string>): Option<string> {
    if account.Some? && Strip(account.value) != "" then Some(Strip(account.value)) else None
  }

  predicate Taken(rows: map<Id, Row>, id: Id, account: Option<string>) {
    account.Some? && exists x :: x in rows && x != id && rows[x].account == account
  }

  function AccountAssigned(s: State, id: Id, account: Option<string>): Step {
    var a := Normalized(account);
    if id !in s.rows then Step(s, Refused(NotFound))
    else if Taken(s.rows, id, a) then Step(s, Refused(UniqueViolation))
    else Step(s.(rows := s.rows[id := s.rows[id].(account := a)]), Assigned)
  }

  // ----- runs -----

  /** A committed call; one whose transaction rolled back changed nothing and does not appear in a run. */
  datatype Call =
    | DoRegister(record: Record)
    | DoTransition(id: Id, to: Status, expected: Option<Status>)
    | DoAssign(id: Id, account: Option<string>)

  function Apply(s: State, c: Call): Step {
    match c
    case DoRegister(r) => Registered(s, r)
    case DoTransition(id, to, expected) => Transitioned(s, id, to, expected)
    case DoAssign(id, account) => AccountAssigned(s, id, account)
  }

  function Run(s: State, calls: seq<Call>): State
    decreases |calls|
  {
    if calls == [] then s else Run(Apply(s, calls[0]).state, calls[1..])
  }

  // ----- the log against the table -----

  /** Where a log leaves a strategy. */
  function StatusAfter(log: seq<Entry>, id: Id): Option<Status> {
    if log == [] then None
    else if log[|log| - 1].id == id then Some(log[|log| - 1].to)
    else StatusAfter(log[..|log| - 1], id)
  }

  predicate LegalEntry(before: seq<Entry>, e: Entry) {
    && e.from == StatusAfter(before, e.id)
    && match e.from case None => e.to == Hypothesis case Some(f) => e.to in Allowed(f)
  }

  /** Every entry continues its own strategy's path by one legal move. */
  ghost predicate LegalLog(log: seq<Entry>) {
    forall k :: 0 <= k < |log| ==> LegalEntry(log[..k], log[k])
  }

  function StatusOf(s: State, id: Id): Option<Status> {
    if id in s.rows then Some(s.rows[id].status) else None
  }

  ghost predicate Replays(s: State) {
    && LegalLog(s.log)
    && forall id: Id :: StatusAfter(s.log, id) == StatusOf(s, id)
  }

  lemma {:induction false} AppendEntry(s: State, e: Entry, rows: map<Id, Row>)
    requires Replays(s) && LegalEntry(s.log, e)
    requires e.id in rows && rows[e.id].status == e.to
    requires forall id: Id :: id != e.id ==> StatusOf(State(rows, []), id) == StatusOf(s, id)
    ensures Replays(State(rows, s.log + [e]))
  {
    var log := s.log + [e];
    assert log[..|s.log|] == s.log;
    forall k | 0 <= k < |log| ensures LegalEntry(log[..k], log[k]) {
      if k < |s.log| {
        assert log[..k] == s.log[..k];
      }
    }
    forall id: Id ensures StatusAfter(log, id) == StatusOf(State(rows, log), id) {
      assert StatusAfter(log, id) == if e.id == id then Some(e.to) else StatusAfter(s.log, id);
      assert StatusOf(State(rows, log), id) == StatusOf(State(rows, []), id);
    }
  }

  lemma {:induction false} ReplaysKept(s: State, c: Call)
    requires Replays(s)
    ensures Replays(Apply(s, c).state)
  {
    hide Strip, LineageIsStated, Collides, RootField, Taken, Replays;
    var s' := Apply(s, c).state;
    assert forall id: Id :: StatusAfter(s.log, id) == StatusOf(s, id) by { StatusesReplay(s); }
    match c {
      case DoRegister(r) =>
        if s' != s {
          AppendEntry(s, Entry(r.id, None, Hypothesis), s'.rows);
        }
      case DoTransition(id, to, expected) =>
        if s' != s {
          AppendEntry(s, Entry(id, Some(s.rows[id].status), to), s'.rows);
        }
      case DoAssign(id, account) =>
        SameStatuses(s, s');
    }
  }

  lemma {:induction false} StatusesReplay(s: State)
    requires Replays(s)
    ensures forall id: Id :: StatusAfter(s.log, id) == StatusOf(s, id)
  {
  }

  lemma {:induction false} SameStatuses(s: State, s': State)
    requires Replays(s) && s'.log == s.log
    requires forall id: Id :: StatusOf(s', id) == StatusOf(s, id)
    ensures Replays(s')
  {
  }

  // ----- lineage -----

  /** Parents are registered, and earlier. */
  ghost predicate ParentsFirst(rows: map<Id, Row>) {
    forall x :: x in rows && rows[x].parent.Some? ==>
      rows[x].parent.value in rows && rows[rows[x].parent.value].born < rows[x].born
  }

  /** The end of the parent chain. */
  ghost function Origin(rows: map<Id, Row>, id: Id): (o: Id)
    requires ParentsFirst(rows) && id in rows
    ensures o in rows && rows[o].parent.None?
    decreases rows[id].born
  {
    if rows[id].parent.None? then id else Origin(rows, rows[id].parent.value)
  }

  /** The last of the parent chain before the empty id, or its end. */
  ghost function Founder(rows: map<Id, Row>, id: Id): (f: Id)
    requires ParentsFirst(rows) && id in rows
    ensures f in rows && Origin(rows, f) == Origin(rows, id) && (id != "" ==> f != "")
    ensures rows[f].parent in {None, Some("")}
    decreases rows[id].born
  {
    if rows[id].parent in {None, Some("")} then id else Founder(rows, rows[id].parent.value)
  }

  /** How many ancestors a strategy has. */
  ghost function Generation(rows: map<Id, Row>, x: Id): (n: nat)
    requires ParentsFirst(rows) && x in rows
    ensures n == 0 <==> rows[x].parent.None?
    decreases rows[x].born
  {
    if rows[x].parent.None? then 0 else 1 + Generation(rows, rows[x].parent.value)
  }

  /**
   What the root column holds: the end of the chain, save that a chain ending at the empty id reads as
   missing from the second generation on, and every child of the empty id starts anew.
   */
  ghost predicate RootHeld(rows: map<Id, Row>, x: Id)
    requires ParentsFirst(rows) && x in rows
  {
    rows[x].root == if Origin(rows, x) != "" then Origin(rows, x)
                    else if x == "" || rows[x].parent == Some("") then "" else Founder(rows, x)
  }

  ghost predicate RootsHeld(rows: map<Id, Row>) {
    && ParentsFirst(rows)
    && (forall x :: x in rows ==> rows[x].born < |rows|)
    && forall x :: x in rows ==> RootHeld(rows, x)
  }

  ghost predicate OneAccountEach(rows: map<Id, Row>) {
    forall x, y :: x in rows && y in rows && x != y && rows[x].account.Some? ==> rows[x].account != rows[y].account
  }

  /** `rows'` has all of `rows` with the same parents, roots and order. */
  ghost predicate SameLineage(rows: map<Id, Row>, rows': map<Id, Row>) {
    forall x :: x in rows ==> x in rows' && rows'[x].parent == rows[x].parent
                              && rows'[x].root == rows[x].root && rows'[x].born == rows[x].born
  }

  lemma {:induction false} OriginKept(rows: map<Id, Row>, rows': map<Id, Row>, x: Id)
    requires ParentsFirst(rows) && ParentsFirst(rows') && SameLineage(rows, rows') && x in rows
    ensures Origin(rows', x) == Origin(rows, x) && Founder(rows', x) == Founder(rows, x)
    decreases rows[x].born
  {
    if rows[x].parent.Some? {
      OriginKept(rows, rows', rows[x].parent.value);
    }
  }

  lemma {:induction false} RootsKept(rows: map<Id, Row>, rows': map<Id, Row>)
    requires RootsHeld(rows) && SameLineage(rows, rows') && rows'.Keys == rows.Keys
    ensures RootsHeld(rows')
  {
    assert |rows'| == |rows'.Keys| == |rows|;
    forall x | x in rows' ensures RootHeld(rows', x) {
      OriginKept(rows, rows', x);
    }
  }

  lemma {:induction false} BirthIsAnExtension(s: State, r: Record)
    requires RootsHeld(s.rows) && Registered(s, r).outcome == Inserted
    ensures var rows' := Registered(s, r).state.rows;
            && r.id !in s.rows && rows'.Keys == s.rows.Keys + {r.id} && |rows'| == |s.rows| + 1
            && SameLineage(s.rows, rows') && ParentsFirst(rows')
            && rows'[r.id].parent == r.parent && (r.parent.Some? ==> r.parent.value in s.rows)
            && rows'[r.id].root == (if r.parent.Some? then RootField(s.rows, r.parent.value) else r.id)
            && rows'[r.id].born == |s.rows|
  {
    hide Strip, Collides, LineageIsStated, RootHeld;
    var rows' := Registered(s, r).state.rows;
    assert rows'.Keys == s.rows.Keys + {r.id};
    assert |rows'| == |rows'.Keys| == |s.rows.Keys| + 1;
  }

  lemma {:induction false} BirthKeepsRoots(s: State, r: Record)
    requires RootsHeld(s.rows) && Registered(s, r).outcome == Inserted
    ensures RootsHeld(Registered(s, r).state.rows)
  {
    hide Registered, ParentsFirst, SameLineage, RootHeld, RootField;
    BirthIsAnExtension(s, r);
    var rows, rows' := s.rows, Registered(s, r).state.rows;
    forall x | x in rows' ensures RootHeld(rows', x) && rows'[x].born < |rows'| {
      if x in rows {
        BirthKeepsRoot(rows, rows', x);
      } else {
        BirthHasRoot(rows, rows', r);
      }
    }
  }

  lemma {:induction false} BirthHasRoot(rows: map<Id, Row>, rows': map<Id, Row>, r: Record)
    requires ParentsFirst(rows) && ParentsFirst(rows') && SameLineage(rows, rows') && r.id !in rows && r.id in rows'
    requires rows'[r.id].parent == r.parent
    requires r.parent.Some? ==> r.parent.value in rows && RootHeld(rows, r.parent.value)
    requires rows'[r.id].root == if r.parent.Some? then RootField(rows, r.parent.value) else r.id
    ensures RootHeld(rows', r.id)
  {
    hide ParentsFirst, SameLineage;
    if r.parent.Some? {
      BirthKeepsRoot(rows, rows', r.parent.value);
    }
  }

  lemma {:induction false} BirthKeepsRoot(rows: map<Id, Row>, rows': map<Id, Row>, x: Id)
    requires ParentsFirst(rows) && ParentsFirst(rows') && SameLineage(rows, rows') && x in rows && RootHeld(rows, x)
    ensures Origin(rows', x) == Origin(rows, x) && Founder(rows', x) == Founder(rows, x)
    ensures RootHeld(rows', x) && rows'[x].born == rows[x].born
  {
    OriginKept(rows, rows', x);
  }

  lemma {:induction false} RootsKeptByCall(s: State, c: Call)
    requires RootsHeld(s.rows)
    ensures RootsHeld(Apply(s, c).state.rows)
  {
    hide Strip, Collides, LineageIsStated, RootsHeld, Taken;
    match c {
      case DoRegister(r) =>
        if Registered(s, r).outcome == Inserted {
          BirthKeepsRoots(s, r);
        }
      case DoTransition(id, to, expected) =>
        RootsKept(s.rows, Apply(s, c).state.rows);
      case DoAssign(id, account) =>
        RootsKept(s.rows, Apply(s, c).state.rows);
    }
  }

  lemma {:induction false} AccountsKept(s: State, c: Call)
    requires OneAccountEach(s.rows)
    ensures OneAccountEach(Apply(s, c).state.rows)
  {
    hide Strip, LineageIsStated, Collides, RootField, Normalized;
    if c.DoAssign? {
      var a := Normalized(c.account);
      if c.id in s.rows && !Taken(s.rows, c.id, a) {
        assert forall x :: x in s.rows && x != c.id && a.Some? ==> s.rows[x].account != a;
      }
    }
  }

  ghost predicate Inv(s: State) {
    Replays(s) && RootsHeld(s.rows) && OneAccountEach(s.rows)
  }

  lemma {:induction false} RunKeeps(s: State, calls: seq<Call>)
    requires Inv(s)
    ensures Inv(Run(s, calls))
    decreases |calls|
  {
    hide Apply, Replays, RootsHeld, OneAccountEach;
    if calls != [] {
      ReplaysKept(s, calls[0]);
      RootsKeptByCall(s, calls[0]);
      AccountsKept(s, calls[0]);
      RunKeeps(Apply(s, calls[0]).state, calls[1..]);
    }
  }

  /**
   In every reachable registry: the log is a legal path of each strategy and replaying it gives its status;
   no two strategies hold one account; parents were registered before their children.
   */
  lemma {:induction false} RegistryContract(calls: seq<Call>)
    ensures var s := Run(Empty, calls);
            && LegalLog(s.log)
            && (forall id: Id :: StatusAfter(s.log, id) == StatusOf(s, id))
            && OneAccountEach(s.rows)
            && ParentsFirst(s.rows)
  {
    assert Inv(Empty);
    RunKeeps(Empty, calls);
  }

  /**
   The recorded root is the end of every parent chain exactly when no strategy descends, at two generations
   or more, from one registered under the empty id.
   */
  lemma {:induction false} RootsAreOrigins(calls: seq<Call>)
    ensures var rows := Run(Empty, calls).rows;
            && ParentsFirst(rows)
            && ((forall x :: x in rows ==> rows[x].root == Origin(rows, x))
                <==> (forall x :: x in rows && rows[x].parent.Some? && rows[x].parent != Some("")
                                  ==> Origin(rows, x) != ""))
  {
    assert Inv(Empty);
    RunKeeps(Empty, calls);
    var rows := Run(Empty, calls).rows;
    assert forall x :: x in rows ==> RootHeld(rows, x);
  }

  /** Any chain of revisions under the empty id: the third generation starts a lineage of its own. */
  lemma {:induction false} EmptyIdResetsTheCount(a: Record, b: Record, c: Record)
    requires a.id == "" && b.parent == Some("") && c.parent == Some(b.id)
    requires var s1 := Registered(Empty, a); var s2 := Registered(s1.state, b); var s3 := Registered(s2.state, c);
             s1.outcome == s2.outcome == s3.outcome == Inserted
    ensures var rows := Run(Empty, [DoRegister(a), DoRegister(b), DoRegister(c)]).rows;
            && c.id in rows && ParentsFirst(rows)
            && Origin(rows, c.id) == "" && rows[c.id].root == b.id != ""
  {
    hide Strip, LineageIsStated, Collides, Run;
    ThreeCalls(DoRegister(a), DoRegister(b), DoRegister(c));
    RegistryContract([DoRegister(a), DoRegister(b), DoRegister(c)]);
    var rows := Run(Empty, [DoRegister(a), DoRegister(b), DoRegister(c)]).rows;
    assert Origin(rows, "") == "" && Origin(rows, b.id) == "";
  }

  lemma {:induction false} ThreeCalls(a: Call, b: Call, c: Call)
    ensures Run(Empty, [a, b, c]) == Apply(Apply(Apply(Empty, a).state, b).state, c).state
  {
    hide Apply;
    var s1 := Apply(Empty, a).state;
    var s2 := Apply(s1, b).state;
    assert [a, b, c][1..] == [b, c] && [b, c][1..] == [c] && [c][1..] == [];
    assert Run(Empty, [a, b, c]) == Run(s1, [b, c]);
    assert Run(s1, [b, c]) == Run(s2, [c]);
    assert Run(s2, [c]) == Run(Apply(s2, c).state, []);
  }

  // ----- attempts -----

  /** `lineage(id)`, as the set of its members' ids. */
  function LineageOf(rows: map<Id, Row>, id: Id): set<Id> {
    if id !in rows then {} else set x | x in rows && rows[x].root == RootField(rows, id)
  }

  /** `attempts(id)`. */
  function Attempts(rows: map<Id, Row>, id: Id): nat {
    |LineageOf(rows, id)|
  }

  /** Everything that descends from `o`, itself included. */
  ghost function TreeOf(rows: map<Id, Row>, o: Id): set<Id>
    requires ParentsFirst(rows)
  {
    set x | x in rows && Origin(rows, x) == o
  }

  lemma {:induction false} ShallowUnderEmpty(rows: map<Id, Row>, x: Id)
    requires ParentsFirst(rows) && x in rows && Origin(rows, x) == ""
    ensures Generation(rows, x) <= 1 <==> x == "" || rows[x].parent == Some("")
  {
    if rows[x].parent.Some? {
      var p := rows[x].parent.value;
      assert Origin(rows, p) == "" && (rows[p].parent.None? ==> p == "");
    }
  }

  /**
   The members of a lineage: the whole tree, unless it grows from the empty id. There the empty id and its children
   make up the lineage of the empty id, and what descends from one child makes up the lineage of all of these and of
   the child, which is not a member of it.
   */
  lemma {:induction false} LineageMembers(rows: map<Id, Row>, id: Id, y: Id)
    requires RootsHeld(rows) && id in rows && y in rows
    ensures y in LineageOf(rows, id) <==>
              if Origin(rows, id) != "" then Origin(rows, y) == Origin(rows, id)
              else Origin(rows, y) == "" && if id == "" then Generation(rows, y) <= 1
                                            else Generation(rows, y) >= 2 && Founder(rows, y) == Founder(rows, id)
  {
    assert RootHeld(rows, id) && RootHeld(rows, y);
    OriginOfOrigin(rows, id);
    OriginOfOrigin(rows, y);
    if Origin(rows, y) == "" {
      ShallowUnderEmpty(rows, y);
    }
  }

  lemma {:induction false} OriginOfOrigin(rows: map<Id, Row>, x: Id)
    requires ParentsFirst(rows) && x in rows
    ensures Origin(rows, Origin(rows, x)) == Origin(rows, x)
  {
  }

  /** The lineage of `id` reaches the whole tree. */
  ghost predicate SeesItsTree(rows: map<Id, Row>, id: Id)
    requires ParentsFirst(rows) && id in rows
  {
    || Origin(rows, id) != ""
    || (id == "" && forall x :: x in rows && Origin(rows, x) == "" ==> Generation(rows, x) <= 1)
  }

  /**
   `attempts` counts only members of the strategy's own tree, and counts them all exactly when the tree does not grow
   from the empty id, or when the strategy is the empty id and nothing descends from its children.
   */
  lemma {:induction false} AttemptsCountTheTree(calls: seq<Call>, id: Id)
    requires id in Run(Empty, calls).rows
    ensures var rows := Run(Empty, calls).rows;
            && ParentsFirst(rows)
            && var tree := TreeOf(rows, Origin(rows, id));
               && LineageOf(rows, id) <= tree
               && (LineageOf(rows, id) == tree <==> SeesItsTree(rows, id))
               && (Attempts(rows, id) == |tree| <==> SeesItsTree(rows, id))
  {
    hide Run, Replays, OneAccountEach, LineageOf, RootHeld;
    assert Inv(Empty) by { EmptyIsSound(); }
    RunKeeps(Empty, calls);
    var rows := Run(Empty, calls).rows;
    LineageIsTree(rows, id);
    SubsetSize(LineageOf(rows, id), TreeOf(rows, Origin(rows, id)));
  }

  lemma {:induction false} EmptyIsSound()
    ensures Inv(Empty)
  {
  }

  lemma {:induction false} SubsetSize<T>(part: set<T>, whole: set<T>)
    requires part <= whole
    ensures |part| == |whole| <==> part == whole
  {
    assert whole == part + (whole - part);
  }

  lemma {:induction false} LineageIsTree(rows: map<Id, Row>, id: Id)
    requires RootsHeld(rows) && id in rows
    ensures LineageOf(rows, id) <= TreeOf(rows, Origin(rows, id))
    ensures LineageOf(rows, id) == TreeOf(rows, Origin(rows, id)) <==> SeesItsTree(rows, id)
  {
    hide RootHeld;
    var tree := TreeOf(rows, Origin(rows, id));
    forall y | y in rows
      ensures y in LineageOf(rows, id) ==> y in tree
      ensures SeesItsTree(rows, id) && y in tree ==> y in LineageOf(rows, id)
    {
      LineageMembers(rows, id, y);
    }
    if !SeesItsTree(rows, id) {
      var missed := MissedMember(rows, id);
      assert missed in tree && missed !in LineageOf(rows, id);
    }
  }

  lemma {:induction false} MissedMember(rows: map<Id, Row>, id: Id) returns (missed: Id)
    requires RootsHeld(rows) && id in rows && !SeesItsTree(rows, id)
    ensures missed in rows && missed in TreeOf(rows, Origin(rows, id)) && missed !in LineageOf(rows, id)
  {
    hide RootHeld, LineageOf;
    if id == "" {
      missed :| missed in rows && Origin(rows, missed) == "" && Generation(rows, missed) > 1;
    } else {
      missed := "";
      OriginOfOrigin(rows, id);
    }
    LineageMembers(rows, id, missed);
  }

  /** `attempts` counts the whole tree for every strategy exactly when no strategy descends from the empty id. */
  lemma {:induction false} AttemptsCountEveryTree(calls: seq<Call>)
    ensures var rows := Run(Empty, calls).rows;
            && ParentsFirst(rows)
            && ((forall id :: id in rows ==> Attempts(rows, id) == |TreeOf(rows, Origin(rows, id))|)
                <==> (forall x :: x in rows && rows[x].parent.Some? ==> Origin(rows, x) != ""))
  {
    hide Run, Attempts, TreeOf;
    RegistryContract(calls);
    var rows := Run(Empty, calls).rows;
    forall id | id in rows
      ensures Attempts(rows, id) == |TreeOf(rows, Origin(rows, id))| <==> SeesItsTree(rows, id)
    {
      AttemptsCountTheTree(calls, id);
    }
    if forall x :: x in rows && rows[x].parent.Some? ==> Origin(rows, x) != "" {
      forall id | id in rows ensures SeesItsTree(rows, id) {
      }
    }
  }

  /**
   A revision's root comes from its parent's row alone, and burns one more attempt of that lineage; asked from the
   revision itself exactly when it is not a child of an original under the empty id, where it counts nothing.
   */
  lemma {:induction false} RevisionBurnsAnAttempt(calls: seq<Call>, r: Record)
    requires var s := Run(Empty, calls); Registered(s, r).outcome == Inserted && r.parent.Some?
    ensures var s := Run(Empty, calls);
            var p, rows' := r.parent.value, Registered(s, r).state.rows;
            && rows'[r.id].root == RootField(s.rows, p)
            && Attempts(rows', p) == Attempts(s.rows, p) + 1
            && Attempts(rows', r.id) == if p == "" && s.rows[p].parent.None? then 0 else Attempts(s.rows, p) + 1
  {
    hide Strip, Collides, Run, Replays, OneAccountEach, RootHeld;
    assert Inv(Empty) by { EmptyIsSound(); }
    RunKeeps(Empty, calls);
    var s := Run(Empty, calls);
    var p, rows' := r.parent.value, Registered(s, r).state.rows;
    assert LineageOf(rows', p) == LineageOf(s.rows, p) + {r.id};
    RootOfEmpty(s.rows, p);
    if p == "" && s.rows[p].parent.None? {
      NobodysRoot(s.rows, r.id);
      assert LineageOf(rows', r.id) == {};
    } else {
      assert LineageOf(rows', r.id) == LineageOf(rows', p);
    }
  }

  lemma {:induction false} RootOfEmpty(rows: map<Id, Row>, p: Id)
    requires RootsHeld(rows) && p in rows
    ensures RootField(rows, p) == "" <==> p == "" && rows[p].parent.None?
  {
    assert RootHeld(rows, p);
    OriginOfOrigin(rows, p);
  }

  /** A root is the id of a row. */
  lemma {:induction false} NobodysRoot(rows: map<Id, Row>, id: Id)
    requires RootsHeld(rows) && id !in rows && id != ""
    ensures forall x :: x in rows ==> rows[x].root != id
  {
    forall x | x in rows ensures rows[x].root != id {
      assert RootHeld(rows, x);
    }
  }

  // ----- registries that hold the empty id -----

  /** Registering under a new id, name and spec adds one row. */
  lemma {:induction false} Accepts(s: State, r: Record)
    requires r.status == Hypothesis && LineageIsStated(r) && r.id !in s.rows
    requires r.parent.Some? ==> r.parent.value in s.rows
    requires forall x :: x in s.rows ==> s.rows[x].specHash != r.specHash && s.rows[x].name != r.name
    ensures Registered(s, r).outcome == Inserted
    ensures Registered(s, r).state.rows
            == s.rows[r.id := NewRow(s, r, if r.parent.Some? then RootField(s.rows, r.parent.value) else r.id)]
  {
  }

  /** `r` is a row as registered, with this root. */
  predicate Shows(rows: map<Id, Row>, r: Record, root: Id) {
    r.id in rows && rows[r.id].parent == r.parent && rows[r.id].root == root
    && rows[r.id].name == r.name && rows[r.id].specHash == r.specHash
  }

  predicate Distinct(q: Record, r: Record) {
    q.id != r.id && q.name != r.name && q.specHash != r.specHash
  }

  /** A first revision of the empty id has an empty root; the revisions after it take its id. */
  lemma {:induction false} FourGenerations(a: Record, b: Record, c: Record, d: Record)
    requires a.id == "" && a.parent.None? && b.parent == Some(a.id) && c.parent == Some(b.id) && d.parent == Some(c.id)
    requires Distinct(a, b) && Distinct(a, c) && Distinct(a, d) && Distinct(b, c) && Distinct(b, d) && Distinct(c, d)
    requires forall r <- [a, b, c, d] :: r.status == Hypothesis && LineageIsStated(r)
    ensures var rows := Run(Empty, [DoRegister(a), DoRegister(b), DoRegister(c), DoRegister(d)]).rows;
            && rows.Keys == {a.id, b.id, c.id, d.id}
            && Shows(rows, a, a.id) && Shows(rows, b, a.id) && Shows(rows, c, b.id) && Shows(rows, d, b.id)
  {
    hide LineageIsStated, Run, Registered;
    var s1 := Registered(Empty, a).state;
    var s2 := Registered(s1, b).state;
    var s3 := Registered(s2, c).state;
    assert a in [a, b, c, d] && b in [a, b, c, d] && c in [a, b, c, d] && d in [a, b, c, d];
    Accepts(Empty, a);
    Accepts(s1, b);
    Accepts(s2, c);
    Accepts(s3, d);
    FourCalls(DoRegister(a), DoRegister(b), DoRegister(c), DoRegister(d));
  }

  const Under := (Record("", "a", 1, "a", Hypothesis, None, None, None),
                  Record("b", "b", 1, "b", Hypothesis, Some(""), None, Some("why")),
                  Record("c", "c", 1, "c", Hypothesis, Some("b"), None, Some("why")),
                  Record("d", "d", 1, "d", Hypothesis, Some("c"), None, Some("why")))

  /** A chain of four, from the empty id. */
  const FourUnderEmpty := [DoRegister(Under.0), DoRegister(Under.1), DoRegister(Under.2), DoRegister(Under.3)]

  /** Two accepted calls after which `attempts` of the empty id's child is 0. */
  lemma {:induction false} ChildOfEmptyCountsNothing()
    ensures var rows := Run(Empty, [DoRegister(Under.0), DoRegister(Under.1)]).rows;
            rows.Keys == {"", "b"} && Attempts(rows, "b") == 0
  {
    hide Strip, Attempts;
    Letters();
    var s := Registered(Empty, Under.0).state;
    Accepts(Empty, Under.0);
    Accepts(s, Under.1);
    var one, two := [DoRegister(Under.0)], [DoRegister(Under.0), DoRegister(Under.1)];
    assert one[1..] == [] && two[1..] == [DoRegister(Under.1)] && [DoRegister(Under.1)][1..] == [];
    assert Run(Empty, one) == s;
    assert Run(Empty, two) == Run(s, [DoRegister(Under.1)]) == Registered(s, Under.1).state;
    RevisionBurnsAnAttempt(one, Under.1);
    assert Registered(s, Under.1).state.rows.Keys == {"", "b"};
  }

  /** Four accepted calls after which the last two share a lineage of their own. */
  lemma {:induction false} LineageUnderEmpty()
    ensures var rows := Run(Empty, FourUnderEmpty).rows;
            && rows.Keys == {"", "b", "c", "d"}
            && rows["b"].parent == Some("") && rows["c"].parent == Some("b") && rows["d"].parent == Some("c")
            && LineageOf(rows, "b") == LineageOf(rows, "c") == LineageOf(rows, "d") == {"c", "d"}
  {
    hide Strip, Run;
    Letters();
    FourGenerations(Under.0, Under.1, Under.2, Under.3);
  }

  lemma {:induction false} Letters()
    ensures Strip("why") == "why"
    ensures "a" != "b" && "a" != "c" && "a" != "d" && "b" != "c" && "b" != "d" && "c" != "d"
  {
    assert "a"[0] != "b"[0] && "a"[0] != "c"[0] && "a"[0] != "d"[0] && "b"[0] != "c"[0] && "b"[0] != "d"[0]
           && "c"[0] != "d"[0];
  }

  lemma {:induction false} FourCalls(a: Call, b: Call, c: Call, d: Call)
    ensures Run(Empty, [a, b, c, d]) == Apply(Apply(Apply(Apply(Empty, a).state, b).state, c).state, d).state
  {
    hide Apply;
    var s1 := Apply(Empty, a).state;
    var s2 := Apply(s1, b).state;
    var s3 := Apply(s2, c).state;
    assert [a, b, c, d][1..] == [b, c, d] && [b, c, d][1..] == [c, d] && [c, d][1..] == [d] && [d][1..] == [];
    assert Run(Empty, [a, b, c, d]) == Run(s1, [b, c, d]);
    assert Run(s1, [b, c, d]) == Run(s2, [c, d]);
    assert Run(s2, [c, d]) == Run(s3, [d]);
    assert Run(s3, [d]) == Run(Apply(s3, d).state, []);
  }

  // ----- the lifecycle -----

  lemma {:induction false} TerminalIsLast(before: seq<Entry>, e: Entry, id: Id)
    requires LegalEntry(before, e) && StatusAfter(before, id) in {Some(Killed), Some(Retired)}
    ensures e.id != id
  {
  }

  lemma {:induction false} TerminalStays(log: seq<Entry>, id: Id, k: nat)
    requires LegalLog(log) && k <= |log|
    requires StatusAfter(log[..k], id) in {Some(Killed), Some(Retired)}
    ensures StatusAfter(log, id) == StatusAfter(log[..k], id)
    ensures forall j :: k <= j < |log| ==> log[j].id != id
    decreases |log|
  {
    hide LegalEntry;
    if k < |log| {
      var before := log[..|log| - 1];
      forall j | 0 <= j < |before| ensures LegalEntry(before[..j], before[j]) {
        assert before[..j] == log[..j] && LegalEntry(log[..j], log[j]);
      }
      assert before[..k] == log[..k];
      TerminalStays(before, id, k);
      TerminalIsLast(before, log[|log| - 1], id);
    } else {
      assert log[..k] == log;
    }
  }

  /** Killed and retired are never left: no later entry, and no later status. */
  lemma {:induction false} NothingLeavesTheGrave(calls: seq<Call>, id: Id, k: nat)
    requires var log := Run(Empty, calls).log;
             k <= |log| && StatusAfter(log[..k], id) in {Some(Killed), Some(Retired)}
    ensures var s := Run(Empty, calls);
            && StatusOf(s, id) == StatusAfter(s.log[..k], id)
            && forall j :: k <= j < |s.log| ==> s.log[j].id != id
  {
    RegistryContract(calls);
    TerminalStays(Run(Empty, calls).log, id, k);
  }

  /** The statuses one strategy passed through. */
  function Path(log: seq<Entry>, id: Id): seq<Status> {
    if log == [] then []
    else
      var before, e := Path(log[..|log| - 1], id), log[|log| - 1];
      if e.id == id then before + [e.to] else before
  }

  const Ladder := [Hypothesis, Paper, SmallSizePaper, LivePaper]

  /** A path that never met a kill-review: a prefix of the ladder, then at most one terminal status. */
  ghost predicate Climbs(p: seq<Status>) {
    || p <= Ladder
    || (p != [] && p[..|p| - 1] <= Ladder && p[|p| - 1] in {Killed, Retired})
  }

  /**
   The legal moves, from the ladder: an active strategy moves to the next rung, into review, or out; from review back to
   any rung, to the second review, or to killed; from the second review to any rung or to killed; from a terminal status
   nowhere. So no review ever leads to retired.
   */
  lemma {:induction false} AllowedExactly(from: Status, to: Status)
    ensures to in Allowed(from) <==>
              || (from in ActiveStages && to in {KillReview, Killed, Retired})
              || (exists j :: 0 <= j < |Ladder| - 1 && from == Ladder[j] && to == Ladder[j + 1])
              || (from in {KillReview, KillReviewMike} && (to in ActiveStages || to == Killed))
              || (from == KillReview && to == KillReviewMike)
  {
    assert Ladder[0] == Hypothesis && Ladder[1] == Paper && Ladder[2] == SmallSizePaper && Ladder[3] == LivePaper;
  }

  lemma {:induction false} PathClimbs(log: seq<Entry>, id: Id)
    requires LegalLog(log)
    requires forall k :: 0 <= k < |log| && log[k].id == id ==> log[k].to !in {KillReview, KillReviewMike}
    ensures Climbs(Path(log, id))
    ensures StatusAfter(log, id) == if Path(log, id) == [] then None else Some(Path(log, id)[|Path(log, id)| - 1])
    decreases |log|
  {
    if log != [] {
      var before := log[..|log| - 1];
      forall j | 0 <= j < |before| ensures LegalEntry(before[..j], before[j]) {
        assert before[..j] == log[..j] && LegalEntry(log[..j], log[j]);
      }
      PathClimbs(before, id);
      var e := log[|log| - 1];
      assert LegalEntry(before, e);
      if e.id == id {
        OneRung(Path(before, id), e);
      }
    }
  }

  /** One legal move, not into a kill-review, from a climbing path. */
  lemma {:induction false} OneRung(p: seq<Status>, e: Entry)
    requires Climbs(p) && e.to !in {KillReview, KillReviewMike}
    requires e.from == if p == [] then None else Some(p[|p| - 1])
    requires match e.from case None => e.to == Hypothesis case Some(f) => e.to in Allowed(f)
    ensures Climbs(p + [e.to])
  {
    var q := p + [e.to];
    assert q[..|q| - 1] == p;
    if p <= Ladder && p != [] {
      assert p[|p| - 1] == Ladder[|p| - 1];
      if e.to !in {Killed, Retired} {
        assert |p| < 4 && e.to == Ladder[|p|];
        assert q == Ladder[..|q|];
      }
    } else if p == [] {
      assert q == Ladder[..1];
    }
  }

  lemma {:induction false} TopOfTheLadder(p: seq<Status>)
    requires Climbs(p) && p != [] && p[|p| - 1] == LivePaper
    ensures p == Ladder
  {
    assert p <= Ladder;
    assert p[|p| - 1] == Ladder[|p| - 1];
  }

  /** The log ever moved `id` into a kill-review. */
  predicate Reviewed(log: seq<Entry>, id: Id) {
    exists k :: 0 <= k < |log| && log[k].id == id && log[k].to in {KillReview, KillReviewMike}
  }

  lemma {:induction false} PathTellsTheLog(log: seq<Entry>, id: Id)
    ensures Reviewed(log, id) <==> KillReview in Path(log, id) || KillReviewMike in Path(log, id)
    ensures StatusAfter(log, id) == if Path(log, id) == [] then None else Some(Path(log, id)[|Path(log, id)| - 1])
  {
    if log != [] {
      var before := log[..|log| - 1];
      PathTellsTheLog(before, id);
      if Reviewed(before, id) {
        var k :| 0 <= k < |before| && before[k].id == id && before[k].to in {KillReview, KillReviewMike};
        assert log[k] == before[k];
      }
      assert forall k :: 0 <= k < |before| ==> log[k] == before[k];
    }
  }

  /** A strategy is at live-paper and was never under review exactly when it climbed every rung, once and in order. */
  lemma {:induction false} LivePaperIsEarned(calls: seq<Call>, id: Id)
    ensures var s := Run(Empty, calls);
            StatusOf(s, id) == Some(LivePaper) && !Reviewed(s.log, id) <==> Path(s.log, id) == Ladder
  {
    hide Run, Path, StatusAfter, LegalLog, Climbs, OneAccountEach, ParentsFirst;
    RegistryContract(calls);
    var s := Run(Empty, calls);
    PathTellsTheLog(s.log, id);
    if StatusOf(s, id) == Some(LivePaper) && !Reviewed(s.log, id) {
      PathClimbs(s.log, id);
      TopOfTheLadder(Path(s.log, id));
    }
  }

  /** Through a kill-review, live-paper is two moves from hypothesis. */
  lemma {:induction false} ReviewSkipsTheLadder(r: Record)
    requires Registered(Empty, r).outcome == Inserted
    ensures exists calls :: |calls| == 3 && StatusOf(Run(Empty, calls), r.id) == Some(LivePaper)
  {
    var a, b, c := DoRegister(r), DoTransition(r.id, KillReview, None), DoTransition(r.id, LivePaper, None);
    ThreeCalls(a, b, c);
    assert StatusOf(Run(Empty, [a, b, c]), r.id) == Some(LivePaper);
  }

  /** No status may follow itself, so a repeated move is always refused, and as already at its target. */
  lemma {:induction false} RepeatedMoveIsRefused(s: State, id: Id, to: Status, expected: Option<Status>)
    requires Transitioned(s, id, to, expected).outcome.Moved?
    ensures var s' := Transitioned(s, id, to, expected).state;
            Transitioned(s', id, to, expected) == Step(s', Refused(InvalidMove(to, to)))
  {
  }

  // ----- each call, exactly -----

  /** Everything but this row is as it was. */
  ghost predicate SameButRow(rows: map<Id, Row>, rows': map<Id, Row>, id: Id) {
    forall x :: x != id ==> (x in rows' <==> x in rows) && (x in rows ==> rows'[x] == rows[x])
  }

  /**
   A proposal is inserted exactly when it starts as a hypothesis; is an original without a reason or a derivation, or a
   revision of another, registered strategy with a reason that is not blank; and shares its id, its spec, and its name
   and version with no row. Under a registered id it is left alone, whatever else it says. Nothing but its own row and
   one entry is written, and nothing when it is not inserted.
   */
  lemma {:induction false} RegisteredExactly(s: State, r: Record)
    ensures var step := Registered(s, r);
            var admitted := r.status == Hypothesis
                            && if r.parent.None? then r.revisionReason.None? && r.derivedFrom.None?
                               else r.parent.value != r.id && r.revisionReason.Some? && !Blank(r.revisionReason.value)
                                    && r.parent.value in s.rows;
            && (step.outcome == AlreadyRegistered <==> admitted && r.id in s.rows)
            && (step.outcome == Inserted
                <==> admitted && r.id !in s.rows
                     && forall x :: x in s.rows ==> s.rows[x].specHash != r.specHash
                                                    && (s.rows[x].name != r.name || s.rows[x].version != r.version))
            && (step.outcome != Inserted ==> step.state == s)
            && (step.outcome == Inserted ==>
                  && step.state.log == s.log + [Entry(r.id, None, Hypothesis)]
                  && SameButRow(s.rows, step.state.rows, r.id) && r.id in step.state.rows
                  && var row := step.state.rows[r.id];
                     && row.status == Hypothesis && row.parent == r.parent && row.account.None?
                     && row.name == r.name && row.version == r.version && row.specHash == r.specHash)
  {
    hide Strip, RootField, IsSpace;
    if r.revisionReason.Some? {
      StripEnds(r.revisionReason.value);
    }
  }

  /**
   A move is made exactly from the expected status, if one is named, by a legal move; it writes that and one entry.
   */
  lemma {:induction false} MovedExactly(s: State, id: Id, to: Status, expected: Option<Status>)
    ensures var step := Transitioned(s, id, to, expected);
            && (step.outcome.Moved?
                <==> id in s.rows && to in Allowed(s.rows[id].status) && expected in {None, Some(s.rows[id].status)})
            && (!step.outcome.Moved? ==> step.state == s)
            && (step.outcome.Moved? ==>
                  var from := s.rows[id].status;
                  && step.outcome == Moved(from, to) && step.state.log == s.log + [Entry(id, Some(from), to)]
                  && SameButRow(s.rows, step.state.rows, id) && id in step.state.rows
                  && step.state.rows[id] == s.rows[id].(status := to))
  {
    AllowedIsListed(s, id, to);
    hide Allowed;
  }

  lemma {:induction false} AllowedIsListed(s: State, id: Id, to: Status)
    ensures id in s.rows && to in Allowed(s.rows[id].status) ==> !to.Unlisted?
  {
  }

  /**
   An account is assigned exactly to a registered strategy, and when no other holds the same text, blanks at its ends
   aside; blank text, or none, clears the assignment and is never refused.
   */
  lemma {:induction false} AssignedExactly(s: State, id: Id, account: Option<string>)
    ensures var step := AccountAssigned(s, id, account);
            var named := if account.None? || Blank(account.value) then None else Some(Strip(account.value));
            && (step.outcome == Assigned
                <==> id in s.rows
                     && (named.None? || forall x :: x in s.rows && x != id ==> s.rows[x].account != named))
            && step.state.log == s.log
            && (step.outcome != Assigned ==> step.state == s)
            && (step.outcome == Assigned ==>
                  && SameButRow(s.rows, step.state.rows, id) && id in step.state.rows
                  && step.state.rows[id] == s.rows[id].(account := named))
  {
    hide Strip, IsSpace;
    if account.Some? {
      StripEnds(account.value);
    }
  }

  /** No two strategies share a spec, or a name and version. */
  ghost predicate SpecsDiffer(rows: map<Id, Row>) {
    forall x, y :: x in rows && y in rows && x != y ==>
      rows[x].specHash != rows[y].specHash && (rows[x].name != rows[y].name || rows[x].version != rows[y].version)
  }

  /** In every reachable registry a spec, and a name with its version, belong to one strategy. */
  lemma {:induction false} SpecsAreUnique(calls: seq<Call>)
    ensures SpecsDiffer(Run(Empty, calls).rows)
  {
    SpecsStayUnique(Empty, calls);
  }

  lemma {:induction false} SpecsStayUnique(s: State, calls: seq<Call>)
    requires SpecsDiffer(s.rows)
    ensures SpecsDiffer(Run(s, calls).rows)
    decreases |calls|
  {
    hide Apply, SpecsDiffer;
    if calls != [] {
      SpecsKept(s, calls[0]);
      SpecsStayUnique(Apply(s, calls[0]).state, calls[1..]);
    }
  }

  lemma {:induction false} SpecsKept(s: State, c: Call)
    requires SpecsDiffer(s.rows)
    ensures SpecsDiffer(Apply(s, c).state.rows)
  {
    hide Registered, Transitioned, AccountAssigned, Allowed;
    match c {
      case DoRegister(r) => RegisteredExactly(s, r);
      case DoTransition(id, to, expected) => MovedExactly(s, id, to, expected);
      case DoAssign(id, account) => AssignedExactly(s, id, account);
    }
  }

  // ----- the table -----

  /** The two tables behind one connection pool. */
  class StrategyRegistry {
    var rows: map<Id, Row>
    var log: seq<Entry>

    constructor ()
      ensures Abs() == Empty
    {
      rows, log := map[], [];
    }

    ghost function Abs(): State
      reads this
    {
      State(rows, log)
    }

    method Register(record: Record) returns (outcome: Outcome)
      modifies this
      ensures Step(Abs(), outcome) == Registered(old(Abs()), record)
    {
      if record.status != Hypothesis {
        return Refused(MustStartAsHypothesis);
      }
      if !LineageIsStated(record) {
        return Refused(BadLineage);
      }
      var root := record.id;
      if record.parent.Some? {
        if record.parent.value !in rows {
          return Refused(UnknownParent);
        }
        root := RootField(rows, record.parent.value);
      }
      if record.id in rows {
        return AlreadyRegistered;
      }
      if Collides(rows, record) {
        return Refused(UniqueViolation);
      }
      rows := rows[record.id := Row(Hypothesis, record.parent, root, None, record.name, record.version,
                                    record.specHash, |rows|)];
      log := log + [Entry(record.id, None, Hypothesis)];
      return Inserted;
    }

    method Transition(id: Id, to: Status, expected: Option<Status>) returns (outcome: Outcome)
      modifies this
      ensures Step(Abs(), outcome) == Transitioned(old(Abs()), id, to, expected)
    {
      if to.Unlisted? {
        return Refused(UnknownTarget);
      }
      if id !in rows {
        return Refused(NotFound);
      }
      var from := rows[id].status;
      if expected.Some? && from != expected.value {
        return Refused(InvalidMove(from, to));
      }
      if to !in Allowed(from) {
        return Refused(InvalidMove(from, to));
      }
      rows := rows[id := rows[id].(status := to)];
      log := log + [Entry(id, Some(from), to)];
      return Moved(from, to);
    }

    method AssignAccount(id: Id, account: Option<string>) returns (outcome: Outcome)
      modifies this`rows
      ensures Step(Abs(), outcome) == AccountAssigned(old(Abs()), id, account)
    {
      var normalized := Normalized(account);
      if id !in rows {
        return Refused(NotFound);
      }
      if Taken(rows, id, normalized) {
        return Refused(UniqueViolation);
      }
      rows := rows[id := rows[id].(account := normalized)];
      return Assigned;
    }
  }
}
