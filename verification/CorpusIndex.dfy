/**
 The corpus index: page through one source's documents, chunk them, upsert deterministic points, and move the
 cursor only after the upsert (src/shrap/intelligence/corpus_index/indexer.py, store.py). A vector is a function
 of its chunk's text, so a point is kept as the text and the document it came from; the UUIDv5 of a point's name
 is taken to be injective, and the name stands for it.
 */
module CorpusIndex {
  import opened Wrappers
  import opened Text
  import opened DecimalText
  import opened Chunker

  /** A row of a source table; `at` is `fetched_at`. */
  datatype Doc = Doc(at: int, ref: string, body: string)

  datatype Point = Point(ref: string, index: nat, text: string)

  /** The cursor row: where the source stands, and the running counters. */
  datatype Cursor = Cursor(at: int, ref: string, documents: nat, points: nat)

  datatype Config = Config(chunk: int, overlap: int, batch: nat, maxDocuments: Option<nat>)

  datatype World = World(points: map<string, Point>, cursor: Option<Cursor>)

  const Empty := World(map[], None)

  // ----- point names -----

  /** `f"{source}:{ref}:{chunk_index}"`. */
  function PointName(source: string, ref: string, index: nat): string {
    source + ":" + ref + ":" + Digits(index)
  }

  lemma {:induction false} DigitsHaveNoColon(n: nat)
    ensures ColonFree(Digits(n))
  {
    hide Digits;
    assert forall k :: 0 <= k < |Digits(n)| ==> IsDigit(Digits(n)[k]);
  }

  /** Names never collide, although references may hold colons: the source holds none, and the index is digits. */
  lemma {:induction false} PointNamesAreInjective(s: string, ref: string, i: nat, s': string, ref': string, i': nat)
    requires ColonFree(s) && ColonFree(s')
    requires PointName(s, ref, i) == PointName(s', ref', i')
    ensures s == s' && ref == ref' && i == i'
  {
    hide Digits;
    DigitsHaveNoColon(i);
    DigitsHaveNoColon(i');
    assert PointName(s, ref, i) == s + ":" + (ref + ":" + Digits(i));
    assert PointName(s', ref', i') == s' + ":" + (ref' + ":" + Digits(i'));
    SplitAtFirstColon(s, ref + ":" + Digits(i), s', ref' + ":" + Digits(i'));
    SplitAtLastColon(ref, Digits(i), ref', Digits(i'));
    DigitsInjective(i, i');
  }

  // ----- paging -----

  /** The database's strict order on references; its collation is not fixed here. */
  ghost predicate StrictOrder(less: (string, string) -> bool) {
    && (forall a: string :: !less(a, a))
    && (forall a: string, b: string, c: string :: less(a, b) && less(b, c) ==> less(a, c))
    && (forall a: string, b: string :: a != b ==> less(a, b) || less(b, a))
  }

  /** `(fetched_at, ref) < (fetched_at', ref')` as a row comparison. */
  predicate Before(less: (string, string) -> bool, at: int, ref: string, at': int, ref': string) {
    at < at' || (at == at' && less(ref, ref'))
  }

  /**
   The row comparison goes by instant, then by reference, and orders any two rows with different references or instants.
   */
  lemma {:induction false} BeforeIsLexicographic(less: (string, string) -> bool, at: int, ref: string, at': int,
                                                 ref': string)
    requires StrictOrder(less)
    ensures at < at' ==> Before(less, at, ref, at', ref')
    ensures at == at' ==> (Before(less, at, ref, at', ref') <==> less(ref, ref'))
    ensures (at, ref) != (at', ref') ==> (Before(less, at, ref, at', ref') <==> !Before(less, at', ref', at, ref))
    ensures !Before(less, at, ref, at, ref)
  {
  }

  /** The table in the query's order; `ref` is its primary key. */
  ghost predicate Ordered(less: (string, string) -> bool, docs: seq<Doc>) {
    && StrictOrder(less)
    && Increasing(less, docs)
    && (forall j, k :: 0 <= j < k < |docs| ==> docs[j].ref != docs[k].ref)
  }

  /** The rows after the cursor, in order. */
  function After(less: (string, string) -> bool, docs: seq<Doc>, cursor: Option<Cursor>): (rows: seq<Doc>)
    ensures |rows| <= |docs|
  {
    if docs == [] then []
    else
      (if !Reaches(less, cursor, docs[0]) then [docs[0]] else [])
      + After(less, docs[1..], cursor)
  }

  function Fetch(less: (string, string) -> bool, docs: seq<Doc>, cursor: Option<Cursor>, limit: nat): seq<Doc> {
    var rows := After(less, docs, cursor);
    if limit < |rows| then rows[..limit] else rows
  }

  // ----- one batch -----

  datatype NamedPoint = NamedPoint(name: string, point: Point)

  /** The points of one document, in chunk order. */
  function PointsOf(source: string, doc: Doc, chunks: seq<string>): (ps: seq<NamedPoint>)
    ensures |ps| == |chunks|
  {
    seq(|chunks|, i requires 0 <= i < |chunks| =>
      NamedPoint(PointName(source, doc.ref, i), Point(doc.ref, i, chunks[i])))
  }

  function ChunksFor(c: Config, doc: Doc): seq<string> {
    var r := ChunksOf(doc.body, c.chunk, c.overlap);
    if r.Ok? then r.value else []
  }

  function BatchPoints(c: Config, source: string, batch: seq<Doc>): seq<NamedPoint> {
    if batch == [] then []
    else BatchPoints(c, source, batch[..|batch| - 1])
         + PointsOf(source, batch[|batch| - 1], ChunksFor(c, batch[|batch| - 1]))
  }

  function Upsert(points: map<string, Point>, ps: seq<NamedPoint>): map<string, Point> {
    if ps == [] then points else Upsert(points, ps[..|ps| - 1])[ps[|ps| - 1].name := ps[|ps| - 1].point]
  }

  /** A batch dies with the first `stored` points durable and the cursor not moved, or completes. */
  datatype Fate = Dies(stored: nat) | Completes

  predicate Splits(c: Config) {
    0 <= c.overlap < c.chunk
  }

  /** `UPSERT_CURSOR_SQL`: the counters add up. */
  function Advance(cursor: Option<Cursor>, last: Doc, documents: nat, points: nat): Cursor {
    match cursor
    case None => Cursor(last.at, last.ref, documents, points)
    case Some(was) => Cursor(last.at, last.ref, was.documents + documents, was.points + points)
  }

  function IndexBatch(c: Config, source: string, w: World, batch: seq<Doc>, fate: Fate): World
    requires batch != []
  {
    var ps := BatchPoints(c, source, batch);
    if !Splits(c) then w
    else match fate
      case Dies(stored) => w.(points := Upsert(w.points, if stored < |ps| then ps[..stored] else ps))
      case Completes => World(Upsert(w.points, ps), Some(Advance(w.cursor, batch[|batch| - 1], |batch|, |ps|)))
  }

  // ----- a pass -----

  /** `min(doc_batch, remaining)`; zero ends the pass. */
  function Limit(c: Config, done: nat): nat {
    var remaining := if c.maxDocuments.None? then c.batch
                     else if done < c.maxDocuments.value then c.maxDocuments.value - done else 0;
    if c.batch < remaining then c.batch else remaining
  }

  /** `index_source`; `fates` runs out where the process is killed between batches. */
  function Pass(less: (string, string) -> bool, c: Config, source: string, docs: seq<Doc>, w: World, done: nat,
                fates: seq<Fate>): World
    decreases |fates|
  {
    var batch := Fetch(less, docs, w.cursor, Limit(c, done));
    if fates == [] || batch == [] then w
    else
      var w' := IndexBatch(c, source, w, batch, fates[0]);
      if !Splits(c) || fates[0].Dies? then w' else Pass(less, c, source, docs, w', done + |batch|, fates[1..])
  }

  /** One pass: the table as it then is, the batch size and limit, and where it is stopped. */
  datatype Visit = Visit(table: seq<Doc>, batch: nat, maxDocuments: Option<nat>, fates: seq<Fate>)

  function At(c: Config, v: Visit): Config {
    c.(batch := v.batch, maxDocuments := v.maxDocuments)
  }

  function Visited(less: (string, string) -> bool, c: Config, source: string, w: World, v: Visit): World {
    Pass(less, At(c, v), source, v.table, w, 0, v.fates)
  }

  /** A run of passes, each stopped wherever it was, while the table grows and batch sizes and limits change freely. */
  function Run(less: (string, string) -> bool, c: Config, source: string, w: World, visits: seq<Visit>): World
    decreases |visits|
  {
    if visits == [] then w else Run(less, c, source, Visited(less, c, source, w, visits[0]), visits[1..])
  }

  /** Each table is in order and holds every document of the one before. */
  ghost predicate Growing(less: (string, string) -> bool, docs: seq<Doc>, visits: seq<Visit>)
    decreases |visits|
  {
    visits == [] ||
    (Ordered(less, visits[0].table) && (forall d <- docs :: d in visits[0].table)
     && Growing(less, visits[0].table, visits[1..]))
  }

  function LastTable(docs: seq<Doc>, visits: seq<Visit>): seq<Doc> {
    if visits == [] then docs else visits[|visits| - 1].table
  }

  // ----- which documents a run gets to -----

  /** The document lies at or below the cursor. */
  predicate Reaches(less: (string, string) -> bool, cursor: Option<Cursor>, d: Doc) {
    cursor.Some? && !Before(less, cursor.value.at, cursor.value.ref, d.at, d.ref)
  }

  /** How many documents of the table lie at or below the cursor. */
  function Position(less: (string, string) -> bool, docs: seq<Doc>, cursor: Option<Cursor>): (k: nat)
    ensures k <= |docs|
  {
    |docs| - |After(less, docs, cursor)|
  }

  /** The documents one pass moved the cursor over. */
  function Crossed(less: (string, string) -> bool, docs: seq<Doc>, from: Option<Cursor>, to: Option<Cursor>): seq<Doc> {
    var k, k' := Position(less, docs, from), Position(less, docs, to);
    if k <= k' then docs[k..k'] else []
  }

  /** The documents the cursor moved over, in the order it did. */
  function Done(less: (string, string) -> bool, c: Config, source: string, w: World, visits: seq<Visit>): seq<Doc>
    decreases |visits|
  {
    if visits == [] then []
    else
      var w' := Visited(less, c, source, w, visits[0]);
      Crossed(less, visits[0].table, w.cursor, w'.cursor) + Done(less, c, source, w', visits[1..])
  }

  /** When the document first was in the table of a pass, it lay above the cursor. */
  predicate InTime(less: (string, string) -> bool, c: Config, source: string, w: World, visits: seq<Visit>, d: Doc)
    decreases |visits|
  {
    visits != [] &&
    if d in visits[0].table then !Reaches(less, w.cursor, d)
    else InTime(less, c, source, Visited(less, c, source, w, visits[0]), visits[1..], d)
  }

  // ----- what every run keeps -----

  /** The cursor stands at the last of these documents, or nowhere when there is none, and counts them. */
  ghost predicate StandsAt(c: Config, source: string, cursor: Option<Cursor>, done: seq<Doc>) {
    && (done == [] <==> cursor.None?)
    && (done != [] ==> && cursor.value.at == done[|done| - 1].at && cursor.value.ref == done[|done| - 1].ref
                       && cursor.value.documents == |done| && cursor.value.points == |BatchPoints(c, source, done)|)
  }

  ghost predicate Increasing(less: (string, string) -> bool, docs: seq<Doc>) {
    forall j, k :: 0 <= j < k < |docs| ==> Before(less, docs[j].at, docs[j].ref, docs[k].at, docs[k].ref)
  }

  /** Every point of `doc` is stored as an uninterrupted run would store it. */
  ghost predicate Stored(c: Config, source: string, points: map<string, Point>, doc: Doc) {
    var chunks := ChunksFor(c, doc);
    forall i :: 0 <= i < |chunks| ==>
      PointName(source, doc.ref, i) in points && points[PointName(source, doc.ref, i)] == Point(doc.ref, i, chunks[i])
  }

  ghost predicate IsPointOf(c: Config, source: string, name: string, p: Point, doc: Doc) {
    p.ref == doc.ref && p.index < |ChunksFor(c, doc)| && p.text == ChunksFor(c, doc)[p.index]
    && name == PointName(source, doc.ref, p.index)
  }

  /** The point belongs to some document of the table. */
  ghost predicate OfTable(c: Config, source: string, name: string, p: Point, docs: seq<Doc>) {
    exists j :: 0 <= j < |docs| && IsPointOf(c, source, name, p, docs[j])
  }

  ghost predicate AllOfTable(c: Config, source: string, ps: seq<NamedPoint>, docs: seq<Doc>) {
    forall i :: 0 <= i < |ps| ==> OfTable(c, source, ps[i].name, ps[i].point, docs)
  }

  /** Every stored point belongs to the table. */
  ghost predicate Sound(c: Config, source: string, points: map<string, Point>, docs: seq<Doc>) {
    forall name :: name in points ==> OfTable(c, source, name, points[name], docs)
  }

  ghost predicate AllStored(c: Config, source: string, points: map<string, Point>, docs: seq<Doc>, done: seq<Doc>) {
    forall d <- done :: d in docs && Stored(c, source, points, d)
  }

  ghost predicate Inv(less: (string, string) -> bool, c: Config, source: string, docs: seq<Doc>, w: World,
                      done: seq<Doc>) {
    && StandsAt(c, source, w.cursor, done)
    && Sound(c, source, w.points, docs)
    && AllStored(c, source, w.points, docs, done)
    && Increasing(less, done)
  }

  lemma {:induction false} AllAfter(less: (string, string) -> bool, docs: seq<Doc>, cursor: Option<Cursor>)
    requires forall j :: 0 <= j < |docs| ==> !Reaches(less, cursor, docs[j])
    ensures After(less, docs, cursor) == docs
  {
    if docs != [] {
      AllAfter(less, docs[1..], cursor);
    }
  }

  /** For any cursor, the rows after it are the table from some position on. */
  lemma {:induction false} AfterIsDrop(less: (string, string) -> bool, docs: seq<Doc>, cursor: Option<Cursor>)
    requires Ordered(less, docs)
    ensures var k := Position(less, docs, cursor);
            && After(less, docs, cursor) == docs[k..]
            && forall j :: 0 <= j < |docs| ==> (Reaches(less, cursor, docs[j]) <==> j < k)
  {
    if docs != [] {
      if Reaches(less, cursor, docs[0]) {
        AfterIsDrop(less, docs[1..], cursor);
        var k := Position(less, docs, cursor);
        assert k == Position(less, docs[1..], cursor) + 1;
        forall j | 0 <= j < |docs| ensures Reaches(less, cursor, docs[j]) <==> j < k {
          assert j > 0 ==> docs[j] == docs[1..][j - 1];
        }
      } else {
        forall j | 0 <= j < |docs| ensures !Reaches(less, cursor, docs[j]) {
          assert j > 0 ==> Before(less, docs[0].at, docs[0].ref, docs[j].at, docs[j].ref);
        }
        AllAfter(less, docs, cursor);
      }
    }
  }

  /** A cursor that stands at a document of the table. */
  lemma {:induction false} PositionAt(less: (string, string) -> bool, docs: seq<Doc>, cursor: Cursor, k: nat)
    requires Ordered(less, docs) && 0 < k <= |docs| && cursor.at == docs[k - 1].at && cursor.ref == docs[k - 1].ref
    ensures Position(less, docs, Some(cursor)) == k
  {
    AfterIsDrop(less, docs, Some(cursor));
    assert Reaches(less, Some(cursor), docs[k - 1]);
    if k < |docs| {
      assert Before(less, docs[k - 1].at, docs[k - 1].ref, docs[k].at, docs[k].ref);
    }
  }

  /** A fetch hands over the next documents after the cursor, wherever it stands. */
  lemma {:induction false} FetchIsNext(less: (string, string) -> bool, docs: seq<Doc>, cursor: Option<Cursor>,
                                       limit: nat)
    requires Ordered(less, docs)
    ensures var k := Position(less, docs, cursor);
            && Fetch(less, docs, cursor, limit) == (if k + limit < |docs| then docs[k..k + limit] else docs[k..])
            && forall j :: 0 <= j < |docs| ==> (Reaches(less, cursor, docs[j]) <==> j < k)
  {
    AfterIsDrop(less, docs, cursor);
    var k := Position(less, docs, cursor);
    assert k + limit < |docs| ==> docs[k..][..limit] == docs[k..k + limit];
  }

  lemma {:induction false} BatchPointsConcat(c: Config, source: string, a: seq<Doc>, b: seq<Doc>)
    ensures BatchPoints(c, source, a + b) == BatchPoints(c, source, a) + BatchPoints(c, source, b)
    decreases |b|
  {
    hide PointsOf, ChunksFor;
    if b == [] {
      assert a + b == a;
    } else {
      var all := a + b;
      assert all[..|all| - 1] == a + b[..|b| - 1] && all[|all| - 1] == b[|b| - 1];
      BatchPointsConcat(c, source, a, b[..|b| - 1]);
    }
  }

  /** Every point of a batch belongs to one of its documents. */
  lemma {:induction false} BatchPointsBelong(c: Config, source: string, batch: seq<Doc>, i: nat)
    requires i < |BatchPoints(c, source, batch)|
    ensures var p := BatchPoints(c, source, batch)[i]; OfTable(c, source, p.name, p.point, batch)
  {
    var before := BatchPoints(c, source, batch[..|batch| - 1]);
    if i < |before| {
      BatchPointsBelong(c, source, batch[..|batch| - 1], i);
    } else {
      var p := BatchPoints(c, source, batch)[i];
      assert IsPointOf(c, source, p.name, p.point, batch[|batch| - 1]);
    }
  }

  lemma {:induction false} UpsertOne(points: map<string, Point>, ps: seq<NamedPoint>, n: nat)
    requires n < |ps|
    ensures Upsert(points, ps[..n + 1]) == Upsert(points, ps[..n])[ps[n].name := ps[n].point]
  {
    assert ps[..n + 1][..n] == ps[..n];
  }

  /** Upserting points of the table's documents adds nothing foreign, and never changes a point of theirs. */
  lemma {:induction false} UpsertKeeps(less: (string, string) -> bool, c: Config, source: string, docs: seq<Doc>,
                                       points: map<string, Point>, ps: seq<NamedPoint>)
    requires ColonFree(source) && Ordered(less, docs) && Sound(c, source, points, docs)
    requires AllOfTable(c, source, ps, docs)
    ensures Sound(c, source, Upsert(points, ps), docs)
    ensures forall j :: 0 <= j < |docs| && Stored(c, source, points, docs[j])
              ==> Stored(c, source, Upsert(points, ps), docs[j])
  {
    hide Sound, Stored, OfTable, Ordered, ColonFree;
    if ps != [] {
      UpsertKeeps(less, c, source, docs, points, ps[..|ps| - 1]);
      UpsertOneKeeps(less, c, source, docs, Upsert(points, ps[..|ps| - 1]), ps[|ps| - 1]);
    }
  }

  lemma {:induction false} UpsertOneKeeps(less: (string, string) -> bool, c: Config, source: string, docs: seq<Doc>,
                       points: map<string, Point>, p: NamedPoint)
    requires ColonFree(source) && Ordered(less, docs) && Sound(c, source, points, docs)
    requires OfTable(c, source, p.name, p.point, docs)
    ensures Sound(c, source, points[p.name := p.point], docs)
    ensures forall j :: 0 <= j < |docs| && Stored(c, source, points, docs[j])
              ==> Stored(c, source, points[p.name := p.point], docs[j])
  {
    hide PointName, ChunksFor, ColonFree;
    var d :| 0 <= d < |docs| && IsPointOf(c, source, p.name, p.point, docs[d]);
    forall j | 0 <= j < |docs| && Stored(c, source, points, docs[j])
      ensures Stored(c, source, points[p.name := p.point], docs[j])
    {
      var chunks := ChunksFor(c, docs[j]);
      forall i | 0 <= i < |chunks| && PointName(source, docs[j].ref, i) == p.name
        ensures p.point == Point(docs[j].ref, i, chunks[i])
      {
        PointNamesAreInjective(source, docs[j].ref, i, source, docs[d].ref, p.point.index);
        assert j == d;
      }
    }
  }

  /** After a whole batch is upserted, each of its documents is stored. */
  lemma {:induction false} UpsertStores(less: (string, string) -> bool, c: Config, source: string, docs: seq<Doc>,
                                        points: map<string, Point>, from: nat, upto: nat)
    requires ColonFree(source) && Ordered(less, docs) && Sound(c, source, points, docs) && from <= upto <= |docs|
    ensures var points' := Upsert(points, BatchPoints(c, source, docs[from..upto]));
            && Sound(c, source, points', docs)
            && (forall j :: 0 <= j < |docs| && Stored(c, source, points, docs[j])
                  ==> Stored(c, source, points', docs[j]))
            && (forall j :: from <= j < upto ==> Stored(c, source, points', docs[j]))
    decreases upto - from
  {
    hide *;
    if from == upto {
      NothingToUpsert(c, source, points, docs[from..upto]);
    } else {
      UpsertStores(less, c, source, docs, points, from, upto - 1);
      var before := BatchPoints(c, source, docs[from..upto - 1]);
      BatchGrows(c, source, docs, from, upto);
      UpsertConcat(points, before, PointsOf(source, docs[upto - 1], ChunksFor(c, docs[upto - 1])));
      UpsertDoc(less, c, source, docs, Upsert(points, before), upto - 1);
    }
  }

  lemma {:induction false} NothingToUpsert(c: Config, source: string, points: map<string, Point>, batch: seq<Doc>)
    requires batch == []
    ensures Upsert(points, BatchPoints(c, source, batch)) == points
  {
  }

  lemma {:induction false} BatchGrows(c: Config, source: string, docs: seq<Doc>, from: nat, upto: nat)
    requires from < upto <= |docs|
    ensures BatchPoints(c, source, docs[from..upto])
            == BatchPoints(c, source, docs[from..upto - 1])
               + PointsOf(source, docs[upto - 1], ChunksFor(c, docs[upto - 1]))
  {
    hide PointsOf, ChunksFor;
    var batch := docs[from..upto];
    assert batch[..|batch| - 1] == docs[from..upto - 1] && batch[|batch| - 1] == docs[upto - 1];
  }

  /** Upserting one document's points stores it and disturbs no other. */
  lemma {:induction false} UpsertDoc(less: (string, string) -> bool, c: Config, source: string, docs: seq<Doc>,
                                     points: map<string, Point>, d: nat)
    requires ColonFree(source) && Ordered(less, docs) && Sound(c, source, points, docs) && d < |docs|
    ensures var points' := Upsert(points, PointsOf(source, docs[d], ChunksFor(c, docs[d])));
            && Sound(c, source, points', docs)
            && (forall j :: 0 <= j < |docs| && Stored(c, source, points, docs[j])
                  ==> Stored(c, source, points', docs[j]))
            && Stored(c, source, points', docs[d])
  {
    hide Sound, Stored, Ordered, Upsert, ColonFree, AllOfTable, PointName;
    var own := PointsOf(source, docs[d], ChunksFor(c, docs[d]));
    OwnPointsBelong(c, source, docs, d);
    UpsertKeeps(less, c, source, docs, points, own);
    UpsertOwn(c, source, points, docs[d], |own|);
    assert own[..|own|] == own;
  }

  lemma {:induction false} OwnPointsBelong(c: Config, source: string, docs: seq<Doc>, j: nat)
    requires j < |docs|
    ensures AllOfTable(c, source, PointsOf(source, docs[j], ChunksFor(c, docs[j])), docs)
  {
    hide PointName;
    var own := PointsOf(source, docs[j], ChunksFor(c, docs[j]));
    forall i | 0 <= i < |own| ensures OfTable(c, source, own[i].name, own[i].point, docs) {
      assert IsPointOf(c, source, own[i].name, own[i].point, docs[j]);
    }
  }

  lemma {:induction false} UpsertConcat(points: map<string, Point>, a: seq<NamedPoint>, b: seq<NamedPoint>)
    ensures Upsert(points, a + b) == Upsert(Upsert(points, a), b)
    decreases |b|
  {
    if b == [] {
      assert a + b == a;
    } else {
      assert (a + b)[..|a + b| - 1] == a + b[..|b| - 1];
      UpsertConcat(points, a, b[..|b| - 1]);
    }
  }

  lemma {:induction false} NameOfIndex(source: string, ref: string, i: nat, j: nat)
    requires PointName(source, ref, i) == PointName(source, ref, j)
    ensures i == j
  {
    hide Digits;
    var head := source + ":" + ref + ":";
    assert Digits(i) == PointName(source, ref, i)[|head|..] && Digits(j) == PointName(source, ref, j)[|head|..];
    DigitsInjective(i, j);
  }

  lemma {:induction false} UpsertOwn(c: Config, source: string, points: map<string, Point>, doc: Doc, n: nat)
    requires n <= |ChunksFor(c, doc)|
    ensures var own := PointsOf(source, doc, ChunksFor(c, doc));
            var points' := Upsert(points, own[..n]);
            && (forall i :: 0 <= i < n ==>
                  PointName(source, doc.ref, i) in points' && points'[PointName(source, doc.ref, i)] == own[i].point)
            && (n == |own| ==> Stored(c, source, points', doc))
  {
    hide PointName, ChunksFor;
    var own := PointsOf(source, doc, ChunksFor(c, doc));
    if n > 0 {
      UpsertOwn(c, source, points, doc, n - 1);
      UpsertOne(points, own, n - 1);
      forall i | 0 <= i < n - 1 ensures PointName(source, doc.ref, i) != own[n - 1].name {
        if PointName(source, doc.ref, i) == own[n - 1].name {
          NameOfIndex(source, doc.ref, i, n - 1);
        }
      }
    }
  }

  lemma {:induction false} SliceBelongs(c: Config, source: string, docs: seq<Doc>, k: nat, n: nat, stored: nat)
    requires k + n <= |docs| && stored <= |BatchPoints(c, source, docs[k..k + n])|
    ensures AllOfTable(c, source, BatchPoints(c, source, docs[k..k + n])[..stored], docs)
  {
    hide IsPointOf, BatchPoints;
    var batch := docs[k..k + n];
    var ps := BatchPoints(c, source, batch);
    forall i | 0 <= i < stored ensures OfTable(c, source, ps[..stored][i].name, ps[..stored][i].point, docs) {
      BatchPointsBelong(c, source, batch, i);
      var j :| 0 <= j < |batch| && IsPointOf(c, source, ps[i].name, ps[i].point, batch[j]);
      assert batch[j] == docs[k + j];
    }
  }

  /** A batch that dies keeps the invariant where it was. */
  lemma {:induction false} DeadBatchKeeps(less: (string, string) -> bool, c: Config, source: string, docs: seq<Doc>,
                                          w: World, done: seq<Doc>, k: nat, n: nat, stored: nat)
    requires ColonFree(source) && Ordered(less, docs) && Splits(c) && Inv(less, c, source, docs, w, done)
    requires 0 < n && k + n <= |docs|
    ensures var w' := IndexBatch(c, source, w, docs[k..k + n], Dies(stored));
            Inv(less, c, source, docs, w', done) && w'.cursor == w.cursor
  {
    hide Sound, Stored, Ordered, StandsAt, ColonFree, Upsert, BatchPoints, AllOfTable, Increasing;
    var ps := BatchPoints(c, source, docs[k..k + n]);
    var upto := if stored < |ps| then stored else |ps|;
    assert ps[..|ps|] == ps;
    SliceBelongs(c, source, docs, k, n, upto);
    UpsertKeeps(less, c, source, docs, w.points, ps[..upto]);
    StoredStays(c, source, docs, w.points, Upsert(w.points, ps[..upto]), done);
  }

  lemma {:induction false} StoredStays(c: Config, source: string, docs: seq<Doc>, points: map<string, Point>,
                                       points': map<string, Point>, done: seq<Doc>)
    requires AllStored(c, source, points, docs, done)
    requires forall j :: 0 <= j < |docs| && Stored(c, source, points, docs[j]) ==> Stored(c, source, points', docs[j])
    ensures AllStored(c, source, points', docs, done)
  {
    hide Stored;
    forall d | d in done ensures d in docs && Stored(c, source, points', d) {
      var j :| 0 <= j < |docs| && docs[j] == d;
    }
  }

  /** A completed batch moves the cursor past all its documents. */
  lemma {:induction false} DoneBatchKeeps(less: (string, string) -> bool, c: Config, source: string, docs: seq<Doc>,
                                          w: World, done: seq<Doc>, n: nat)
    requires ColonFree(source) && Ordered(less, docs) && Splits(c) && Inv(less, c, source, docs, w, done)
    requires var k := Position(less, docs, w.cursor); 0 < n && k + n <= |docs|
    ensures var k := Position(less, docs, w.cursor);
            var w' := IndexBatch(c, source, w, docs[k..k + n], Completes);
            && Inv(less, c, source, docs, w', done + docs[k..k + n])
            && Position(less, docs, w'.cursor) == k + n
  {
    hide Sound, Stored, Ordered, ColonFree, Upsert, BatchPoints, Position, Increasing, AllStored;
    var k := Position(less, docs, w.cursor);
    var batch := docs[k..k + n];
    var w' := IndexBatch(c, source, w, batch, Completes);
    UpsertStores(less, c, source, docs, w.points, k, k + n);
    StoredStays(c, source, docs, w.points, w'.points, done);
    StoredMore(c, source, docs, w'.points, done, k, n);
    BatchPointsConcat(c, source, done, batch);
    NoPoints(c, source);
    StillIncreasing(less, c, source, docs, w.cursor, done, k, n);
    PositionAt(less, docs, w'.cursor.value, k + n);
  }

  lemma {:induction false} StoredMore(c: Config, source: string, docs: seq<Doc>, points: map<string, Point>,
                                      done: seq<Doc>, k: nat, n: nat)
    requires AllStored(c, source, points, docs, done) && k + n <= |docs|
    requires forall j :: k <= j < k + n ==> Stored(c, source, points, docs[j])
    ensures AllStored(c, source, points, docs, done + docs[k..k + n])
  {
    hide Stored;
    forall d | d in done + docs[k..k + n] ensures d in docs && Stored(c, source, points, d) {
      if d !in done {
        var j :| 0 <= j < n && docs[k..k + n][j] == d;
        assert docs[k + j] == d;
      }
    }
  }

  lemma {:induction false} StillIncreasing(less: (string, string) -> bool, c: Config, source: string, docs: seq<Doc>,
                                           cursor: Option<Cursor>, done: seq<Doc>, k: nat, n: nat)
    requires Ordered(less, docs) && Increasing(less, done) && StandsAt(c, source, cursor, done)
    requires k == Position(less, docs, cursor) && k + n <= |docs|
    ensures Increasing(less, done + docs[k..k + n])
  {
    hide Position, BatchPoints;
    AfterIsDrop(less, docs, cursor);
    var all := done + docs[k..k + n];
    forall i, j | 0 <= i < j < |all| ensures Before(less, all[i].at, all[i].ref, all[j].at, all[j].ref) {
      if i < |done| <= j {
        assert !Reaches(less, cursor, docs[k + (j - |done|)]);
        assert i < |done| - 1 ==> Before(less, all[i].at, all[i].ref, done[|done| - 1].at, done[|done| - 1].ref);
      } else if i >= |done| {
        assert all[i] == docs[k + (i - |done|)] && all[j] == docs[k + (j - |done|)];
      }
    }
  }

  lemma {:induction false} NoPoints(c: Config, source: string)
    ensures BatchPoints(c, source, []) == []
  {
  }

  /** A pass nothing interrupts: no document limit, and a process that outlives every batch. */
  predicate Uninterrupted(v: Visit) {
    v.batch > 0 && v.maxDocuments.None? && |v.fates| > |v.table|
    && forall i :: 0 <= i < |v.fates| ==> v.fates[i] == Completes
  }

  ghost predicate LastsLongEnough(c: Config, docs: seq<Doc>, fates: seq<Fate>, k: nat) {
    c.maxDocuments.None? && c.batch > 0 && |fates| > |docs| - k
    && forall i :: 0 <= i < |fates| ==> fates[i] == Completes
  }

  lemma {:induction false} Lasting(c: Config, docs: seq<Doc>, fates: seq<Fate>, k: nat, done: nat, n: nat)
    requires k + n <= |docs|
    ensures LastsLongEnough(c, docs, fates, k) ==> fates != [] && fates[0] == Completes && Limit(c, done) > 0
    ensures LastsLongEnough(c, docs, fates, k) && n > 0 ==> LastsLongEnough(c, docs, fates[1..], k + n)
  {
  }

  /** A pass moves the cursor over the documents between where it stood and where it stops, and stores them. */
  lemma {:induction false} PassKeeps(less: (string, string) -> bool, c: Config, source: string, docs: seq<Doc>,
                                     w: World, count: nat, fates: seq<Fate>, done: seq<Doc>)
    requires ColonFree(source) && Ordered(less, docs) && Splits(c) && Inv(less, c, source, docs, w, done)
    ensures var w' := Pass(less, c, source, docs, w, count, fates);
            var k, k' := Position(less, docs, w.cursor), Position(less, docs, w'.cursor);
            && k <= k' && Inv(less, c, source, docs, w', done + docs[k..k'])
            && (LastsLongEnough(c, docs, fates, k) ==> k' == |docs|)
    decreases |fates|
  {
    hide Inv, Ordered, IndexBatch, Splits, Fetch, ColonFree, Limit, LastsLongEnough, Position;
    FetchIsNext(less, docs, w.cursor, Limit(c, count));
    var k := Position(less, docs, w.cursor);
    var batch := Fetch(less, docs, w.cursor, Limit(c, count));
    Lasting(c, docs, fates, k, count, |batch|);
    assert done + docs[k..k] == done;
    if fates != [] && batch != [] {
      assert batch == docs[k..k + |batch|];
      if fates[0].Dies? {
        DeadBatchKeeps(less, c, source, docs, w, done, k, |batch|, fates[0].stored);
      } else {
        DoneBatchKeeps(less, c, source, docs, w, done, |batch|);
        var w1 := IndexBatch(c, source, w, batch, Completes);
        PassKeeps(less, c, source, docs, w1, count + |batch|, fates[1..], done + batch);
        var k' := Position(less, docs, Pass(less, c, source, docs, w1, count + |batch|, fates[1..]).cursor);
        assert done + batch + docs[k + |batch|..k'] == done + docs[k..k'];
      }
    }
  }

  /** Batch sizes and limits do not enter into what a document's points are. */
  lemma {:induction false} SameChunks(less: (string, string) -> bool, c: Config, c': Config, source: string,
                                      docs: seq<Doc>, w: World, done: seq<Doc>)
    requires c.chunk == c'.chunk && c.overlap == c'.overlap && Inv(less, c, source, docs, w, done)
    ensures Inv(less, c', source, docs, w, done)
  {
    hide ChunksOf, PointName, Increasing;
    assert forall d :: ChunksFor(c', d) == ChunksFor(c, d);
    SamePoints(c, c', source, done);
    forall name | name in w.points ensures OfTable(c', source, name, w.points[name], docs) {
      assert OfTable(c, source, name, w.points[name], docs);
      var j :| 0 <= j < |docs| && IsPointOf(c, source, name, w.points[name], docs[j]);
      assert IsPointOf(c', source, name, w.points[name], docs[j]);
    }
    forall d | d in done ensures Stored(c', source, w.points, d) {
      assert Stored(c, source, w.points, d);
    }
  }

  lemma {:induction false} SamePoints(c: Config, c': Config, source: string, batch: seq<Doc>)
    requires c.chunk == c'.chunk && c.overlap == c'.overlap
    ensures BatchPoints(c', source, batch) == BatchPoints(c, source, batch)
  {
    if batch != [] {
      SamePoints(c, c', source, batch[..|batch| - 1]);
    }
  }

  /** A table that grew still has every stored point. */
  lemma {:induction false} GrowthKeeps(less: (string, string) -> bool, c: Config, source: string, docs: seq<Doc>,
                                       docs': seq<Doc>, w: World, done: seq<Doc>)
    requires Inv(less, c, source, docs, w, done) && forall d <- docs :: d in docs'
    ensures Inv(less, c, source, docs', w, done)
  {
    hide IsPointOf, Stored, StandsAt, Increasing;
    forall name | name in w.points ensures OfTable(c, source, name, w.points[name], docs') {
      assert OfTable(c, source, name, w.points[name], docs);
      var j :| 0 <= j < |docs| && IsPointOf(c, source, name, w.points[name], docs[j]);
      assert docs[j] in docs';
    }
  }

  /** One visit, on a table that grew. */
  lemma {:induction false} VisitKeeps(less: (string, string) -> bool, c: Config, source: string, docs: seq<Doc>,
                                      w: World, v: Visit, done: seq<Doc>)
    requires ColonFree(source) && Splits(c) && Inv(less, c, source, docs, w, done)
    requires Ordered(less, v.table) && forall d <- docs :: d in v.table
    ensures var w' := Visited(less, c, source, w, v);
            && Position(less, v.table, w.cursor) <= Position(less, v.table, w'.cursor)
            && Inv(less, c, source, v.table, w', done + Crossed(less, v.table, w.cursor, w'.cursor))
            && (Uninterrupted(v) ==> Position(less, v.table, w'.cursor) == |v.table|)
  {
    hide Inv, Pass, Position, Ordered;
    GrowthKeeps(less, c, source, docs, v.table, w, done);
    SameChunks(less, c, At(c, v), source, v.table, w, done);
    PassKeeps(less, At(c, v), source, v.table, w, 0, v.fates, done);
    var w' := Visited(less, c, source, w, v);
    SameChunks(less, At(c, v), c, source, v.table, w', done + Crossed(less, v.table, w.cursor, w'.cursor));
  }

  lemma {:induction false} RunKeeps(less: (string, string) -> bool, c: Config, source: string, docs: seq<Doc>, w: World,
                                    visits: seq<Visit>, done: seq<Doc>)
    requires ColonFree(source) && Splits(c) && Inv(less, c, source, docs, w, done) && Growing(less, docs, visits)
    ensures Inv(less, c, source, LastTable(docs, visits), Run(less, c, source, w, visits),
                done + Done(less, c, source, w, visits))
    decreases |visits|
  {
    hide Inv, Visited, Ordered, Crossed, ColonFree, Splits;
    if visits == [] {
      assert done + [] == done;
    } else {
      var w' := Visited(less, c, source, w, visits[0]);
      var crossed := Crossed(less, visits[0].table, w.cursor, w'.cursor);
      VisitKeeps(less, c, source, docs, w, visits[0], done);
      RunKeeps(less, c, source, visits[0].table, w', visits[1..], done + crossed);
      assert done + crossed + Done(less, c, source, w', visits[1..]) == done + Done(less, c, source, w, visits);
      assert LastTable(docs, visits) == LastTable(visits[0].table, visits[1..]);
    }
  }

  lemma {:induction false} StartsEmpty(less: (string, string) -> bool, c: Config, source: string)
    ensures Inv(less, c, source, [], Empty, [])
  {
  }

  // ----- exactly the documents that came in time -----

  lemma {:induction false} CrossedExactly(less: (string, string) -> bool, docs: seq<Doc>, from: Option<Cursor>,
                                          to: Option<Cursor>, d: Doc)
    requires Ordered(less, docs) && Position(less, docs, from) <= Position(less, docs, to)
    ensures d in Crossed(less, docs, from, to) <==> d in docs && !Reaches(less, from, d) && Reaches(less, to, d)
  {
    hide Position, Ordered, Reaches;
    AfterIsDrop(less, docs, from);
    AfterIsDrop(less, docs, to);
    var k, k' := Position(less, docs, from), Position(less, docs, to);
    if d in docs {
      var j :| 0 <= j < |docs| && docs[j] == d;
      if k <= j < k' {
        assert docs[k..k'][j - k] == d;
      }
    }
    if d in docs[k..k'] {
      var i :| 0 <= i < k' - k && docs[k..k'][i] == d;
      assert docs[k + i] == d;
    }
  }

  /** A pass never moves the cursor back, whatever the table. */
  lemma {:induction false} CursorsAdvance(less: (string, string) -> bool, docs: seq<Doc>, from: Option<Cursor>,
                                          to: Option<Cursor>, d: Doc)
    requires Ordered(less, docs) && Position(less, docs, from) <= Position(less, docs, to)
    requires d in docs && Reaches(less, from, d)
    ensures Reaches(less, to, d)
  {
    hide Position, Ordered, Reaches;
    AfterIsDrop(less, docs, from);
    AfterIsDrop(less, docs, to);
    var j :| 0 <= j < |docs| && docs[j] == d;
  }

  /** The cursor moves over a document exactly when it came in time and the cursor got to it. */
  lemma {:induction false} DoneExactly(less: (string, string) -> bool, c: Config, source: string, docs: seq<Doc>,
                                       w: World, visits: seq<Visit>, done: seq<Doc>, d: Doc)
    requires ColonFree(source) && Splits(c) && Inv(less, c, source, docs, w, done) && Growing(less, docs, visits)
    ensures d in Done(less, c, source, w, visits)
            <==> InTime(less, c, source, w, visits, d) && Reaches(less, Run(less, c, source, w, visits).cursor, d)
    ensures visits != [] && d in visits[0].table && Reaches(less, w.cursor, d) ==>
              Reaches(less, Run(less, c, source, w, visits).cursor, d)
    decreases |visits|
  {
    hide Inv, Visited, Ordered, Crossed, ColonFree, Splits, Reaches, Position;
    if visits != [] {
      var v := visits[0];
      var w' := Visited(less, c, source, w, v);
      VisitKeeps(less, c, source, docs, w, v, done);
      CrossedExactly(less, v.table, w.cursor, w'.cursor, d);
      if d in v.table && Reaches(less, w.cursor, d) {
        CursorsAdvance(less, v.table, w.cursor, w'.cursor, d);
      }
      DoneExactly(less, c, source, v.table, w', visits[1..], done + Crossed(less, v.table, w.cursor, w'.cursor), d);
      if visits[1..] != [] {
        assert d in v.table ==> d in visits[1].table;
      }
    }
  }

  lemma {:induction false} RunAppend(less: (string, string) -> bool, c: Config, source: string, w: World,
                                     visits: seq<Visit>, last: Visit)
    ensures Run(less, c, source, w, visits + [last]) == Visited(less, c, source, Run(less, c, source, w, visits), last)
    decreases |visits|
  {
    hide Visited;
    var all := visits + [last];
    if visits == [] {
      assert all[1..] == [];
      assert Run(less, c, source, Visited(less, c, source, w, last), []) == Visited(less, c, source, w, last);
    } else {
      assert all[1..] == visits[1..] + [last];
      RunAppend(less, c, source, Visited(less, c, source, w, visits[0]), visits[1..], last);
    }
  }

  lemma {:induction false} GrowingAppend(less: (string, string) -> bool, docs: seq<Doc>, visits: seq<Visit>,
                                         last: Visit)
    requires Growing(less, docs, visits + [last])
    ensures Growing(less, docs, visits) && Ordered(less, last.table)
            && forall d <- LastTable(docs, visits) :: d in last.table
    decreases |visits|
  {
    hide Ordered;
    var all := visits + [last];
    if visits == [] {
      assert all[1..] == [];
    } else {
      assert all[1..] == visits[1..] + [last];
      GrowingAppend(less, visits[0].table, visits[1..], last);
      assert LastTable(docs, visits) == LastTable(visits[0].table, visits[1..]);
    }
  }

  /**
   At every moment of every run, over a table that may grow anywhere between passes: the stored points are points of
   the table's documents as an uninterrupted pass stores them; the documents at or below the cursor that came in
   time, and no others, are those the cursor moved over; it did so in order, all of them are fully stored, and its
   counters count exactly them and their points.
   */
  lemma {:induction false} IndexContract(less: (string, string) -> bool, c: Config, source: string, visits: seq<Visit>)
    requires ColonFree(source) && Splits(c) && Growing(less, [], visits)
    ensures var w, done := Run(less, c, source, Empty, visits), Done(less, c, source, Empty, visits);
            && Sound(c, source, w.points, LastTable([], visits))
            && StandsAt(c, source, w.cursor, done) && Increasing(less, done)
            && (forall d :: d in done <==> InTime(less, c, source, Empty, visits, d) && Reaches(less, w.cursor, d))
            && (forall d :: d in done ==> d in LastTable([], visits) && Stored(c, source, w.points, d))
  {
    hide Run, Sound, Stored, StandsAt, Increasing, Done, InTime, Reaches;
    StartsEmpty(less, c, source);
    RunKeeps(less, c, source, [], Empty, visits, []);
    var done := Done(less, c, source, Empty, visits);
    assert [] + done == done;
    forall d ensures d in done <==> InTime(less, c, source, Empty, visits, d)
                                    && Reaches(less, Run(less, c, source, Empty, visits).cursor, d)
    {
      DoneExactly(less, c, source, [], Empty, visits, [], d);
    }
  }

  // ----- what can be found -----

  /** `part` lies whole inside a stored point of the document, under that point's own name. */
  ghost predicate Findable(source: string, points: map<string, Point>, d: Doc, part: string) {
    exists i: nat :: PointName(source, d.ref, i) in points && Quotes(points[PointName(source, d.ref, i)], d, i, part)
  }

  ghost predicate Quotes(p: Point, d: Doc, i: nat, part: string) {
    p.ref == d.ref && p.index == i && Occurs(part, p.text)
  }

  /**
   At every moment of every run, what the index holds of a document it got to is that document's text: every stretch
   of the body, blanks at its ends aside, of 50 to overlap + 1 characters that starts and ends on a non-space can be
   found, and a body that is not blank has a point.
   */
  lemma {:induction false} BodiesAreFindable(less: (string, string) -> bool, c: Config, source: string,
                                             visits: seq<Visit>, d: Doc)
    requires ColonFree(source) && 0 <= c.overlap < c.chunk && Growing(less, [], visits)
    requires InTime(less, c, source, Empty, visits, d) && Reaches(less, Run(less, c, source, Empty, visits).cursor, d)
    ensures var points, body := Run(less, c, source, Empty, visits).points, Strip(d.body);
            forall a, b :: 0 <= a && MIN_CHUNK_CHARS <= b - a <= c.overlap + 1 && b <= |body|
                           && !IsSpace(body[a]) && !IsSpace(body[b - 1])
                           ==> Findable(source, points, d, body[a..b])
    ensures (exists k :: 0 <= k < |d.body| && !IsSpace(d.body[k])) ==>
              PointName(source, d.ref, 0) in Run(less, c, source, Empty, visits).points
  {
    hide Run, Sound, StandsAt, Increasing, Done, InTime, Reaches, Growing, ColonFree, IsSpace, Strip, ChunksOf,
         PointName, Occurs;
    IndexContract(less, c, source, visits);
    ChunkContract(d.body, c.chunk, c.overlap);
    var points, body, chunks := Run(less, c, source, Empty, visits).points, Strip(d.body), ChunksFor(c, d);
    forall a, b | 0 <= a && MIN_CHUNK_CHARS <= b - a <= c.overlap + 1 && b <= |body|
                  && !IsSpace(body[a]) && !IsSpace(body[b - 1])
      ensures Findable(source, points, d, body[a..b])
    {
      assert Covered(body[a..b], chunks);
      var k :| 0 <= k < |chunks| && Occurs(body[a..b], chunks[k]);
      assert Quotes(points[PointName(source, d.ref, k)], d, k, body[a..b]);
    }
  }

  /**
   At every moment of every run, a stored point quotes a document of the table, of which it holds at least one
   character and at most a window, under the name made of the source, that document and its number.
   */
  lemma {:induction false} PointsQuoteTheTable(less: (string, string) -> bool, c: Config, source: string,
                                               visits: seq<Visit>, name: string)
    requires ColonFree(source) && 0 <= c.overlap < c.chunk && Growing(less, [], visits)
    requires name in Run(less, c, source, Empty, visits).points
    ensures var p := Run(less, c, source, Empty, visits).points[name];
            0 < |p.text| <= c.chunk && name == source + ":" + p.ref + ":" + Digits(p.index)
            && exists d <- LastTable([], visits) :: d.ref == p.ref && Occurs(p.text, d.body)
  {
    hide Run, StandsAt, Increasing, Done, InTime, Reaches, Growing, ColonFree, IsSpace, Strip, ChunksOf, Digits, Occurs,
         LastTable;
    IndexContract(less, c, source, visits);
    var p, table := Run(less, c, source, Empty, visits).points[name], LastTable([], visits);
    var j :| 0 <= j < |table| && IsPointOf(c, source, name, p, table[j]);
    var d := table[j];
    ChunkContract(d.body, c.chunk, c.overlap);
    ChunksAreOfTheText(d.body, c.chunk, c.overlap);
    assert p.text in ChunksFor(c, d);
    assert d in table && d.ref == p.ref && Occurs(p.text, d.body);
  }

  // ----- late arrivals -----

  /** The same points of `d` are stored in both. */
  ghost predicate SamePointsOf(source: string, points: map<string, Point>, points': map<string, Point>, d: Doc) {
    forall i: nat ::
      && (PointName(source, d.ref, i) in points <==> PointName(source, d.ref, i) in points')
      && (PointName(source, d.ref, i) in points
          ==> points'[PointName(source, d.ref, i)] == points[PointName(source, d.ref, i)])
  }

  lemma {:induction false} SameIsStored(c: Config, source: string, points: map<string, Point>,
                                        points': map<string, Point>, d: Doc)
    requires SamePointsOf(source, points, points', d)
    ensures Stored(c, source, points, d) <==> Stored(c, source, points', d)
  {
    hide PointName, ChunksFor;
  }

  /** The name of a point of `d`. */
  ghost predicate NamesPointOf(source: string, name: string, d: Doc) {
    exists i: nat :: name == PointName(source, d.ref, i)
  }

  ghost predicate Spares(source: string, ps: seq<NamedPoint>, d: Doc) {
    forall k :: 0 <= k < |ps| ==> !NamesPointOf(source, ps[k].name, d)
  }

  lemma {:induction false} UpsertSpares(source: string, points: map<string, Point>, ps: seq<NamedPoint>, d: Doc)
    requires Spares(source, ps, d)
    ensures SamePointsOf(source, points, Upsert(points, ps), d)
  {
    hide PointName;
    if ps != [] {
      UpsertSpares(source, points, ps[..|ps| - 1], d);
    }
  }

  /** The points of other documents have other names. */
  lemma {:induction false} BatchSpares(less: (string, string) -> bool, c: Config, source: string, docs: seq<Doc>,
                                       k: nat, n: nat, d: Doc)
    requires ColonFree(source) && Ordered(less, docs) && k + n <= |docs| && d in docs && d !in docs[k..k + n]
    ensures Spares(source, BatchPoints(c, source, docs[k..k + n]), d)
  {
    hide BatchPoints, Ordered, NamesPointOf, IsPointOf;
    var batch := docs[k..k + n];
    var ps := BatchPoints(c, source, batch);
    forall j | 0 <= j < |ps| ensures !NamesPointOf(source, ps[j].name, d) {
      BatchPointsBelong(c, source, batch, j);
      var b :| 0 <= b < |batch| && IsPointOf(c, source, ps[j].name, ps[j].point, batch[b]);
      assert batch[b] == docs[k + b];
      OtherName(less, c, source, docs, ps[j].name, ps[j].point, batch[b], d);
    }
  }

  lemma {:induction false} OtherName(less: (string, string) -> bool, c: Config, source: string, docs: seq<Doc>,
                                     name: string, p: Point, e: Doc, d: Doc)
    requires ColonFree(source) && Ordered(less, docs) && d in docs && e in docs && d != e
    requires IsPointOf(c, source, name, p, e)
    ensures !NamesPointOf(source, name, d)
  {
    hide PointName, ColonFree, Ordered, ChunksFor;
    if NamesPointOf(source, name, d) {
      var i: nat :| name == PointName(source, d.ref, i);
      PointNamesAreInjective(source, d.ref, i, source, e.ref, p.index);
      OneRef(less, docs, d, e);
    }
  }

  /** A pass, wherever it stops, does not touch the points of a document at or below the cursor. */
  lemma {:induction false} PassSparesReached(less: (string, string) -> bool, c: Config, source: string, docs: seq<Doc>,
                                             w: World, count: nat, fates: seq<Fate>, d: Doc)
    requires ColonFree(source) && Ordered(less, docs) && d in docs && Reaches(less, w.cursor, d)
    ensures SamePointsOf(source, w.points, Pass(less, c, source, docs, w, count, fates).points, d)
    decreases |fates|
  {
    hide Ordered, BatchPoints, Fetch, ColonFree, Limit, Position, Upsert, Reaches, PointName;
    FetchIsNext(less, docs, w.cursor, Limit(c, count));
    var k := Position(less, docs, w.cursor);
    var batch := Fetch(less, docs, w.cursor, Limit(c, count));
    if fates != [] && batch != [] && Splits(c) {
      var n := |batch|;
      assert batch == docs[k..k + n];
      forall b | 0 <= b < n ensures batch[b] != d {
        assert batch[b] == docs[k + b];
      }
      BatchSpares(less, c, source, docs, k, n, d);
      var w' := IndexBatch(c, source, w, batch, fates[0]);
      var ps := BatchPoints(c, source, batch);
      if fates[0].Dies? {
        UpsertSpares(source, w.points, if fates[0].stored < |ps| then ps[..fates[0].stored] else ps, d);
      } else {
        UpsertSpares(source, w.points, ps, d);
        PositionAt(less, docs, w'.cursor.value, k + n);
        CursorsAdvance(less, docs, w.cursor, w'.cursor, d);
        PassSparesReached(less, c, source, docs, w', count + n, fates[1..], d);
      }
    }
  }

  /** No point of a document is stored before it arrives. */
  lemma {:induction false} NewIsUnstored(less: (string, string) -> bool, c: Config, source: string, docs: seq<Doc>,
                                         docs': seq<Doc>, points: map<string, Point>, d: Doc)
    requires ColonFree(source) && Sound(c, source, points, docs) && Ordered(less, docs')
    requires (forall e <- docs :: e in docs') && d in docs' && d !in docs
    ensures Stored(c, source, points, d) <==> ChunksFor(c, d) == []
  {
    hide PointName, ColonFree, ChunksFor, Increasing;
    if ChunksFor(c, d) != [] && Stored(c, source, points, d) {
      var name := PointName(source, d.ref, 0);
      assert name in points && OfTable(c, source, name, points[name], docs);
      var j :| 0 <= j < |docs| && IsPointOf(c, source, name, points[name], docs[j]);
      PointNamesAreInjective(source, d.ref, 0, source, docs[j].ref, points[name].index);
      OneRef(less, docs', d, docs[j]);
    }
  }

  lemma {:induction false} OneRef(less: (string, string) -> bool, docs: seq<Doc>, d: Doc, e: Doc)
    requires Ordered(less, docs) && d in docs && e in docs && d.ref == e.ref
    ensures d == e
  {
  }

  lemma {:induction false} LateStaysOut(less: (string, string) -> bool, c: Config, source: string, docs: seq<Doc>,
                                        w: World, visits: seq<Visit>, done: seq<Doc>, d: Doc)
    requires ColonFree(source) && Splits(c) && Inv(less, c, source, docs, w, done) && Growing(less, docs, visits)
    requires d in LastTable(docs, visits) && !InTime(less, c, source, w, visits, d)
    requires d in docs ==> Reaches(less, w.cursor, d) && (Stored(c, source, w.points, d) <==> ChunksFor(c, d) == [])
    ensures Stored(c, source, Run(less, c, source, w, visits).points, d) <==> ChunksFor(c, d) == []
    decreases |visits|
  {
    hide Ordered, Crossed, ColonFree, Splits, Reaches, Position, Sound, Stored, AllStored, StandsAt, Increasing, Pass,
         ChunksFor;
    if visits != [] {
      var v := visits[0];
      var w' := Visited(less, c, source, w, v);
      VisitKeeps(less, c, source, docs, w, v, done);
      if d in v.table {
        if d !in docs {
          NewIsUnstored(less, c, source, docs, v.table, w.points, d);
        }
        CursorsAdvance(less, v.table, w.cursor, w'.cursor, d);
        PassSparesReached(less, At(c, v), source, v.table, w, 0, v.fates, d);
        SameIsStored(c, source, w.points, w'.points, d);
      }
      assert LastTable(docs, visits) == LastTable(v.table, visits[1..]);
      assert visits[1..] != [] && d in v.table ==> d in visits[1].table;
      LateStaysOut(less, c, source, v.table, w', visits[1..], done + Crossed(less, v.table, w.cursor, w'.cursor), d);
    }
  }

  /** A document that arrives at or below the cursor is never indexed: nothing of it is stored at any later moment. */
  lemma {:induction false} LateArrivalsAreSkipped(less: (string, string) -> bool, c: Config, source: string,
                                                  visits: seq<Visit>, d: Doc)
    requires ColonFree(source) && Splits(c) && Growing(less, [], visits)
    requires d in LastTable([], visits) && !InTime(less, c, source, Empty, visits, d)
    ensures Stored(c, source, Run(less, c, source, Empty, visits).points, d) <==> ChunksFor(c, d) == []
    ensures d !in Done(less, c, source, Empty, visits)
  {
    hide Inv, Growing, Run, InTime, Stored, ChunksFor;
    StartsEmpty(less, c, source);
    LateStaysOut(less, c, source, [], Empty, visits, [], d);
    DoneExactly(less, c, source, [], Empty, visits, [], d);
  }

  lemma {:induction false} LastPass(less: (string, string) -> bool, c: Config, source: string, visits: seq<Visit>,
                                    last: Visit)
    requires ColonFree(source) && Splits(c) && Growing(less, [], visits + [last]) && Uninterrupted(last)
    ensures var w, all := Run(less, c, source, Empty, visits + [last]), visits + [last];
            && Inv(less, c, source, last.table, w, Done(less, c, source, Empty, all))
            && Ordered(less, last.table)
            && (forall d :: d in last.table ==> Reaches(less, w.cursor, d))
            && (forall d :: d in Done(less, c, source, Empty, all)
                  <==> d in last.table && InTime(less, c, source, Empty, all, d))
  {
    hide Inv, Growing, Ordered, Run, InTime, Done, Reaches, Visited, Uninterrupted, Position, Crossed;
    var all, before := visits + [last], Run(less, c, source, Empty, visits);
    var w := Run(less, c, source, Empty, all);
    StartsEmpty(less, c, source);
    GrowingAppend(less, [], visits, last);
    RunAppend(less, c, source, Empty, visits, last);
    RunKeeps(less, c, source, [], Empty, visits, []);
    VisitKeeps(less, c, source, LastTable([], visits), before, last, [] + Done(less, c, source, Empty, visits));
    RunKeeps(less, c, source, [], Empty, all, []);
    assert [] + Done(less, c, source, Empty, all) == Done(less, c, source, Empty, all);
    AfterIsDrop(less, last.table, w.cursor);
    forall d
      ensures d in Done(less, c, source, Empty, all) <==> d in last.table && InTime(less, c, source, Empty, all, d)
    {
      DoneExactly(less, c, source, [], Empty, all, [], d);
      DoneIsListed(less, c, source, last.table, w, Done(less, c, source, Empty, all), d);
    }
  }

  lemma {:induction false} DoneIsListed(less: (string, string) -> bool, c: Config, source: string, docs: seq<Doc>,
                                        w: World, done: seq<Doc>, d: Doc)
    requires Inv(less, c, source, docs, w, done)
    ensures d in done ==> d in docs && Stored(c, source, w.points, d)
  {
    hide Stored;
  }

  /** After any run that ends with an uninterrupted pass, exactly the documents that came in time are indexed. */
  lemma {:induction false} IndexedExactly(less: (string, string) -> bool, c: Config, source: string, visits: seq<Visit>,
                                          last: Visit, d: Doc)
    requires ColonFree(source) && Splits(c) && Growing(less, [], visits + [last]) && Uninterrupted(last)
             && d in last.table
    ensures Stored(c, source, Run(less, c, source, Empty, visits + [last]).points, d)
            <==> InTime(less, c, source, Empty, visits + [last], d) || ChunksFor(c, d) == []
  {
    hide Inv, Growing, Run, InTime, Done, Reaches, Uninterrupted, Stored, ChunksFor, Ordered;
    LastPass(less, c, source, visits, last);
    var w := Run(less, c, source, Empty, visits + [last]);
    DoneIsListed(less, c, source, last.table, w, Done(less, c, source, Empty, visits + [last]), d);
    NoChunksIsStored(c, source, w.points, d);
    if !InTime(less, c, source, Empty, visits + [last], d) {
      LateArrivalsAreSkipped(less, c, source, visits + [last], d);
    }
  }

  lemma {:induction false} NoChunksIsStored(c: Config, source: string, points: map<string, Point>, d: Doc)
    ensures ChunksFor(c, d) == [] ==> Stored(c, source, points, d)
  {
  }

  /**
   An uninterrupted pass, after any run and on a table that may have grown, adds exactly what lies above the cursor.
   */
  lemma {:induction false} PassIndexesExactly(less: (string, string) -> bool, c: Config, source: string,
                                              visits: seq<Visit>, last: Visit, d: Doc)
    requires ColonFree(source) && Splits(c) && Growing(less, [], visits + [last]) && Uninterrupted(last)
             && d in last.table
    ensures var before, after := Run(less, c, source, Empty, visits), Run(less, c, source, Empty, visits + [last]);
            Stored(c, source, after.points, d)
            <==> Stored(c, source, before.points, d) || !Reaches(less, before.cursor, d)
  {
    hide Inv, Growing, Run, Done, Reaches, Uninterrupted, Stored, Ordered, Position, Pass, Crossed;
    var before := Run(less, c, source, Empty, visits);
    StartsEmpty(less, c, source);
    GrowingAppend(less, [], visits, last);
    RunAppend(less, c, source, Empty, visits, last);
    RunKeeps(less, c, source, [], Empty, visits, []);
    var done := [] + Done(less, c, source, Empty, visits);
    VisitKeeps(less, c, source, LastTable([], visits), before, last, done);
    var after := Visited(less, c, source, before, last);
    if Reaches(less, before.cursor, d) {
      PassSparesReached(less, At(c, last), source, last.table, before, 0, last.fates, d);
      SameIsStored(c, source, before.points, after.points, d);
    } else {
      AfterIsDrop(less, last.table, after.cursor);
      CrossedExactly(less, last.table, before.cursor, after.cursor, d);
      DoneIsListed(less, c, source, last.table, after, done + Crossed(less, last.table, before.cursor, after.cursor),
                   d);
    }
  }

  lemma {:induction false} TablesKeep(less: (string, string) -> bool, docs: seq<Doc>, visits: seq<Visit>, d: Doc)
    requires Growing(less, docs, visits) && d in docs
    ensures d in LastTable(docs, visits)
    decreases |visits|
  {
    hide Ordered;
    if visits != [] {
      TablesKeep(less, visits[0].table, visits[1..], d);
      assert LastTable(docs, visits) == LastTable(visits[0].table, visits[1..]);
    }
  }

  /** A document that is new in the table of a pass comes in time exactly when it lies above the cursor. */
  lemma {:induction false} NewIsInTimeExactly(less: (string, string) -> bool, c: Config, source: string, docs: seq<Doc>,
                                              w: World, visits: seq<Visit>, next: Visit, d: Doc)
    requires Growing(less, docs, visits + [next]) && d !in LastTable(docs, visits) && d in next.table
    ensures InTime(less, c, source, w, visits + [next], d)
            <==> !Reaches(less, Run(less, c, source, w, visits).cursor, d)
    decreases |visits|
  {
    hide Ordered, Visited, Reaches;
    var all := visits + [next];
    if visits != [] {
      var v := visits[0];
      assert all[1..] == visits[1..] + [next];
      GrowingAppend(less, docs, visits, next);
      if d in v.table {
        TablesKeep(less, v.table, visits[1..], d);
      }
      assert LastTable(docs, visits) == LastTable(v.table, visits[1..]);
      NewIsInTimeExactly(less, c, source, v.table, Visited(less, c, source, w, v), visits[1..], next, d);
    }
  }

  /** After an uninterrupted pass, whatever is then inserted before some document of the table comes too late. */
  lemma {:induction false} InsertedBelowIsLate(less: (string, string) -> bool, c: Config, source: string,
                                               visits: seq<Visit>, last: Visit, next: Visit, d: Doc, e: Doc)
    requires ColonFree(source) && Splits(c) && Growing(less, [], visits + [last] + [next]) && Uninterrupted(last)
    requires e in last.table && d in next.table && d !in last.table && Before(less, d.at, d.ref, e.at, e.ref)
    ensures !InTime(less, c, source, Empty, visits + [last] + [next], d)
  {
    hide Inv, Growing, Run, InTime, Done, Uninterrupted;
    GrowingAppend(less, [], visits + [last], next);
    LastPass(less, c, source, visits, last);
    NewIsInTimeExactly(less, c, source, [], Empty, visits + [last], next, d);
    assert Reaches(less, Run(less, c, source, Empty, visits + [last]).cursor, e);
  }

  // ----- resuming -----

  lemma {:induction false} CompletePointsAgree(c: Config, source: string, docs: seq<Doc>, a: map<string, Point>,
                                               b: map<string, Point>)
    requires Sound(c, source, a, docs) && forall j :: 0 <= j < |docs| ==> Stored(c, source, b, docs[j])
    ensures forall name :: name in a ==> name in b && b[name] == a[name]
  {
    hide PointName, ChunksFor;
    forall name | name in a ensures name in b && b[name] == a[name] {
      assert OfTable(c, source, name, a[name], docs);
      var j :| 0 <= j < |docs| && IsPointOf(c, source, name, a[name], docs[j]);
      assert Stored(c, source, b, docs[j]);
    }
  }

  lemma {:induction false} FirstIsMember(docs: seq<Doc>)
    ensures docs != [] ==> docs[0] in docs
  {
  }

  /** The last of increasing documents is the greatest, and the others are those before it. */
  lemma {:induction false} LastIsGreatest(less: (string, string) -> bool, docs: seq<Doc>, d: Doc)
    requires StrictOrder(less) && Increasing(less, docs) && docs != []
    ensures var before, last := docs[..|docs| - 1], docs[|docs| - 1];
            && Increasing(less, before) && (d in before <==> d in docs && d != last)
            && (d in before ==> Before(less, d.at, d.ref, last.at, last.ref))
  {
    assert docs == docs[..|docs| - 1] + [docs[|docs| - 1]];
  }

  lemma {:induction false} NotBothWays(less: (string, string) -> bool, x: Doc, y: Doc)
    requires StrictOrder(less) && Before(less, x.at, x.ref, y.at, y.ref)
    ensures !Before(less, y.at, y.ref, x.at, x.ref)
  {
  }

  /** Increasing sequences of the same documents are equal. */
  lemma {:induction false} SameIncreasing(less: (string, string) -> bool, a: seq<Doc>, b: seq<Doc>)
    requires StrictOrder(less) && Increasing(less, a) && Increasing(less, b) && forall d :: d in a <==> d in b
    ensures a == b
  {
    hide StrictOrder, Increasing, Before;
    FirstIsMember(a);
    FirstIsMember(b);
    if a != [] {
      var a', x, b', y := a[..|a| - 1], a[|a| - 1], b[..|b| - 1], b[|b| - 1];
      LastIsGreatest(less, a, y);
      LastIsGreatest(less, b, x);
      if x != y {
        NotBothWays(less, x, y);
      }
      forall d ensures d in a' <==> d in b' {
        LastIsGreatest(less, a, d);
        LastIsGreatest(less, b, d);
      }
      SameIncreasing(less, a', b');
      assert a == a' + [x] && b == b' + [y];
    }
  }

  /** Increasing documents are as many as their set. */
  lemma {:induction false} IncreasingSize(less: (string, string) -> bool, docs: seq<Doc>)
    requires StrictOrder(less) && Increasing(less, docs)
    ensures |Members(docs)| == |docs|
  {
    hide StrictOrder, Increasing;
    if docs != [] {
      var before, last := docs[..|docs| - 1], docs[|docs| - 1];
      LastIsGreatest(less, docs, last);
      IncreasingSize(less, before);
      forall d ensures d in docs <==> d in before || d == last {
        LastIsGreatest(less, docs, d);
      }
      assert Members(docs) == Members(before) + {last};
    }
  }

  ghost function Members(docs: seq<Doc>): set<Doc> {
    set d | d in docs
  }

  /** Increasing documents of the table that leave one out are fewer. */
  lemma {:induction false} Fewer(less: (string, string) -> bool, done: seq<Doc>, docs: seq<Doc>, d: Doc)
    requires StrictOrder(less) && Increasing(less, done) && Increasing(less, docs)
    requires (forall e <- done :: e in docs) && d in docs && d !in done
    ensures |done| < |docs|
  {
    hide StrictOrder, Increasing;
    IncreasingSize(less, done);
    IncreasingSize(less, docs);
    SmallerSet(Members(done), Members(docs), d);
  }

  lemma {:induction false} SmallerSet<T>(part: set<T>, whole: set<T>, x: T)
    requires part <= whole && x in whole && x !in part
    ensures |part| < |whole|
  {
    assert whole == part + (whole - part);
    assert x in whole - part;
  }

  /** Two ends of uninterrupted passes on one table are equal exactly when the same documents got done. */
  lemma {:induction false} FinishedAlike(less: (string, string) -> bool, c: Config, source: string, docs: seq<Doc>,
                                         w: World, done: seq<Doc>, w': World)
    requires Ordered(less, docs)
    requires Inv(less, c, source, docs, w, done) && Inv(less, c, source, docs, w', docs)
    ensures w == w' <==> forall d :: d in docs ==> d in done
  {
    hide Sound, Stored, BatchPoints;
    if forall d :: d in docs ==> d in done {
      SameIncreasing(less, done, docs);
      CompletePointsAgree(c, source, docs, w.points, w'.points);
      CompletePointsAgree(c, source, docs, w'.points, w.points);
      assert w.points == w'.points;
    } else {
      var d :| d in docs && d !in done;
      Fewer(less, done, docs, d);
    }
  }

  /**
   Whatever crashed before and however the table grew, an uninterrupted pass ends with exactly the points, and the
   counters, of a single uninterrupted pass over an empty index, exactly when every document came in time; so it does
   whenever the table did not change.
   */
  lemma {:induction false} ResumingReachesTheSameIndex(less: (string, string) -> bool, c: Config, source: string,
                                                       visits: seq<Visit>, last: Visit, alone: Visit)
    requires ColonFree(source) && Splits(c) && Growing(less, [], visits + [last])
    requires Uninterrupted(last) && Uninterrupted(alone) && alone.table == last.table
    ensures Run(less, c, source, Empty, visits + [last]) == Run(less, c, source, Empty, [alone])
            <==> forall d :: d in last.table ==> InTime(less, c, source, Empty, visits + [last], d)
    ensures (forall v <- visits :: v.table == last.table) ==>
              Run(less, c, source, Empty, visits + [last]) == Run(less, c, source, Empty, [alone])
  {
    hide Inv, Run, InTime, Done, Uninterrupted, Ordered, Growing;
    LastPass(less, c, source, visits, last);
    AloneIsInTime(less, c, source, alone);
    assert [] + [alone] == [alone];
    AloneGrows(less, alone);
    LastPass(less, c, source, [], alone);
    var done, done' := Done(less, c, source, Empty, visits + [last]), Done(less, c, source, Empty, [alone]);
    AllDone(less, c, source, last.table, Run(less, c, source, Empty, [alone]), done');
    FinishedAlike(less, c, source, last.table, Run(less, c, source, Empty, visits + [last]), done,
                  Run(less, c, source, Empty, [alone]));
    if forall v <- visits :: v.table == last.table {
      var first := (visits + [last])[0];
      assert first.table == last.table;
      FirstIsInTime(less, c, source, visits + [last]);
    }
  }

  lemma {:induction false} AloneGrows(less: (string, string) -> bool, alone: Visit)
    requires Ordered(less, alone.table)
    ensures Growing(less, [], [alone])
  {
    assert [alone][1..] == [];
  }

  lemma {:induction false} AloneIsInTime(less: (string, string) -> bool, c: Config, source: string, alone: Visit)
    ensures forall d :: d in alone.table ==> InTime(less, c, source, Empty, [alone], d)
  {
    FirstIsInTime(less, c, source, [alone]);
  }

  lemma {:induction false} FirstIsInTime(less: (string, string) -> bool, c: Config, source: string, visits: seq<Visit>)
    requires visits != []
    ensures forall d :: d in visits[0].table ==> InTime(less, c, source, Empty, visits, d)
  {
  }

  lemma {:induction false} AllDone(less: (string, string) -> bool, c: Config, source: string, docs: seq<Doc>, w: World,
                                   done: seq<Doc>)
    requires Ordered(less, docs) && Inv(less, c, source, docs, w, done) && forall d :: d in done <==> d in docs
    ensures done == docs
  {
    hide Sound, Stored, StandsAt, AllStored;
    SameIncreasing(less, done, docs);
  }

  lemma {:induction false} AfterIsLater(less: (string, string) -> bool, docs: seq<Doc>, cursor: Cursor, i: nat)
    requires i < |After(less, docs, Some(cursor))|
    ensures var d := After(less, docs, Some(cursor))[i]; Before(less, cursor.at, cursor.ref, d.at, d.ref)
    decreases |docs|
  {
    var here := if Before(less, cursor.at, cursor.ref, docs[0].at, docs[0].ref) then [docs[0]] else [];
    if i >= |here| {
      AfterIsLater(less, docs[1..], cursor, i - |here|);
    }
  }

  /** On any table, grown or not, a completed batch strictly advances the cursor; a dead one leaves it. */
  lemma {:induction false} BatchesAdvanceTheCursor(less: (string, string) -> bool, c: Config, source: string,
                                                   table: seq<Doc>, w: World, limit: nat, fate: Fate)
    requires w.cursor.Some? && Fetch(less, table, w.cursor, limit) != []
    ensures var w' := IndexBatch(c, source, w, Fetch(less, table, w.cursor, limit), fate);
            && w'.cursor.Some?
            && if Splits(c) && fate.Completes?
               then Before(less, w.cursor.value.at, w.cursor.value.ref, w'.cursor.value.at, w'.cursor.value.ref)
               else w'.cursor == w.cursor
  {
    var batch := Fetch(less, table, w.cursor, limit);
    AfterIsLater(less, table, w.cursor.value, |batch| - 1);
  }

  /**
   A batch that dies has stored its points up to some one of them, in order, and moved no cursor: none of them, one
   more than before, or all that a completed batch stores.
   */
  lemma {:induction false} DeadBatchStoresAPrefix(c: Config, source: string, w: World, batch: seq<Doc>, stored: nat)
    requires batch != [] && Splits(c)
    ensures var ps, dead := BatchPoints(c, source, batch), IndexBatch(c, source, w, batch, Dies(stored));
            && dead.cursor == w.cursor
            && (stored == 0 ==> dead.points == w.points)
            && (stored < |ps| ==>
                  IndexBatch(c, source, w, batch, Dies(stored + 1)).points
                  == dead.points[ps[stored].name := ps[stored].point])
            && (stored >= |ps| ==> dead.points == IndexBatch(c, source, w, batch, Completes).points)
  {
    hide BatchPoints;
    var ps := BatchPoints(c, source, batch);
    if stored < |ps| {
      UpsertOne(w.points, ps, stored);
      assert stored + 1 == |ps| ==> ps[..stored + 1] == ps;
    }
  }

  /**
   A pass moves the cursor over no more documents than its limit allows; and, when every batch completes and the process
   lasts, over exactly that many, or all there are.
   */
  lemma {:induction false} PassStopsAtTheLimit(less: (string, string) -> bool, c: Config, source: string,
                                               docs: seq<Doc>, w: World, count: nat, fates: seq<Fate>)
    requires Ordered(less, docs) && Splits(c) && (c.maxDocuments.Some? ==> count <= c.maxDocuments.value)
    ensures var w' := Pass(less, c, source, docs, w, count, fates);
            var k, k' := Position(less, docs, w.cursor), Position(less, docs, w'.cursor);
            && k <= k'
            && (c.maxDocuments.Some? ==> k' - k <= c.maxDocuments.value - count)
            && (c.batch > 0 && |fates| > |docs| - k && (forall fate <- fates :: fate.Completes?) ==>
                  k' == if c.maxDocuments.None? || k + c.maxDocuments.value - count >= |docs| then |docs|
                        else k + c.maxDocuments.value - count)
    decreases |fates|
  {
    hide Ordered, Fetch, Position, BatchPoints, Upsert;
    FetchIsNext(less, docs, w.cursor, Limit(c, count));
    var k, batch := Position(less, docs, w.cursor), Fetch(less, docs, w.cursor, Limit(c, count));
    if fates != [] && batch != [] {
      assert fates[0] in fates && forall fate <- fates[1..] :: fate in fates;
      var w1 := IndexBatch(c, source, w, batch, fates[0]);
      if fates[0].Completes? {
        assert batch == docs[k..k + |batch|];
        PositionAt(less, docs, w1.cursor.value, k + |batch|);
        PassStopsAtTheLimit(less, c, source, docs, w1, count + |batch|, fates[1..]);
      }
    }
  }

  // ----- the indexer -----

  /** The cursor table and the vector collection, as one indexer drives them. */
  class CorpusIndexer {
    const config: Config
    var points: map<string, Point>
    var cursor: Option<Cursor>

    constructor (config: Config)
      ensures this.config == config && Abs() == Empty
    {
      this.config := config;
      points, cursor := map[], None;
    }

    ghost function Abs(): World
      reads this
    {
      World(points, cursor)
    }

    method UpsertPoints(ps: seq<NamedPoint>)
      modifies this`points
      ensures points == Upsert(old(points), ps)
    {
      var n := 0;
      while n < |ps|
        invariant 0 <= n <= |ps| && points == Upsert(old(points), ps[..n])
      {
        UpsertOne(old(points), ps, n);
        points := points[ps[n].name := ps[n].point];
        n := n + 1;
      }
      assert ps[..n] == ps;
    }

    /** The chunks of a batch, as the points to upsert. */
    method CollectPoints(source: string, batch: seq<Doc>) returns (ps: seq<NamedPoint>)
      ensures ps == BatchPoints(config, source, batch)
    {
      hide PointsOf, ChunksOf;
      ps := [];
      var i := 0;
      while i < |batch|
        invariant 0 <= i <= |batch|
        invariant ps == BatchPoints(config, source, batch[..i])
      {
        var chunks := ChunkText(batch[i].body, config.chunk, config.overlap);
        assert batch[..i + 1][..i] == batch[..i];
        assert ChunksFor(config, batch[i]) == if chunks.Ok? then chunks.value else [];
        ps := ps + PointsOf(source, batch[i], if chunks.Ok? then chunks.value else []);
        i := i + 1;
      }
      assert batch[..i] == batch;
    }

    /** `_index_batch` and the cursor write after it; `survives` is false where the process died. */
    method IndexOneBatch(source: string, batch: seq<Doc>, fate: Fate) returns (survives: bool)
      requires batch != []
      modifies this
      ensures Abs() == IndexBatch(config, source, old(Abs()), batch, fate)
      ensures survives == (Splits(config) && fate.Completes?)
    {
      hide Upsert, BatchPoints;
      if !Splits(config) {
        return false;
      }
      var ps := CollectPoints(source, batch);
      if fate.Dies? {
        UpsertPoints(if fate.stored < |ps| then ps[..fate.stored] else ps);
        return false;
      }
      UpsertPoints(ps);
      cursor := Some(Advance(cursor, batch[|batch| - 1], |batch|, |ps|));
      return true;
    }

    method IndexSource(less: (string, string) -> bool, source: string, docs: seq<Doc>, fates: seq<Fate>)
        returns (documents: nat)
      modifies this
      ensures Abs() == Pass(less, config, source, docs, old(Abs()), 0, fates)
    {
      hide IndexBatch, Fetch, Limit, Splits;
      documents := 0;
      var i := 0;
      ghost var goal := Pass(less, config, source, docs, Abs(), 0, fates);
      while i < |fates|
        invariant 0 <= i <= |fates|
        invariant Pass(less, config, source, docs, Abs(), documents, fates[i..]) == goal
      {
        var batch := Fetch(less, docs, cursor, Limit(config, documents));
        if batch == [] {
          return;
        }
        assert fates[i..][0] == fates[i] && fates[i..][1..] == fates[i + 1..];
        var survives := IndexOneBatch(source, batch, fates[i]);
        if !survives {
          return;
        }
        documents := documents + |batch|;
        i := i + 1;
      }
    }
  }
}
