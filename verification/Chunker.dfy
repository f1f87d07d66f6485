/** Splitting a document into overlapping windows (src/shrap/intelligence/corpus_index/chunker.py). */
module Chunker {
  import opened Wrappers
  import opened Text

  const MIN_CHUNK_CHARS := 50

  datatype BadWindow = ChunkNotPositive | OverlapNegative | OverlapTooLarge

  /** The window starting at `start`, stripped. */
  function Window(cleaned: string, start: nat, chunk: nat): (w: string)
    requires start < |cleaned|
    ensures |w| <= chunk
  {
    Strip(if start + chunk < |cleaned| then cleaned[start..start + chunk] else cleaned[start..])
  }

  /** The windows kept from `start` on; `none` says that nothing was kept before. */
  function Windows(cleaned: string, start: nat, chunk: nat, overlap: nat, none: bool): seq<string>
    requires overlap < chunk
    decreases |cleaned| - start
  {
    if start >= |cleaned| then []
    else
      var w := Window(cleaned, start, chunk);
      var here := if |w| >= MIN_CHUNK_CHARS || (none && w != "") then [w] else [];
      if start + chunk >= |cleaned| then here
      else here + Windows(cleaned, start + (chunk - overlap), chunk, overlap, none && here == [])
  }

  function ChunksOf(text: string, chunk: int, overlap: int): Result<seq<string>, BadWindow> {
    if chunk <= 0 then Err(ChunkNotPositive)
    else if overlap < 0 then Err(OverlapNegative)
    else if overlap >= chunk then Err(OverlapTooLarge)
    else Ok(Windows(Strip(text), 0, chunk, overlap, true))
  }

  /** One turn of the loop, with `chunks` collected before it. */
  lemma {:induction false} WindowsUnfold(cleaned: string, start: nat, chunk: nat, overlap: nat, chunks: seq<string>)
    requires overlap < chunk && start < |cleaned|
    ensures var w := Window(cleaned, start, chunk);
            var after := if |w| >= MIN_CHUNK_CHARS || (chunks == [] && w != "") then chunks + [w] else chunks;
            chunks + Windows(cleaned, start, chunk, overlap, chunks == [])
            == if start + chunk >= |cleaned| then after
               else after + Windows(cleaned, start + (chunk - overlap), chunk, overlap, after == [])
  {
    hide Window;
    var w := Window(cleaned, start, chunk);
    var here := if |w| >= MIN_CHUNK_CHARS || (chunks == [] && w != "") then [w] else [];
    assert chunks == [] && here == [] <==> chunks + here == [];
    var rest := Windows(cleaned, start + (chunk - overlap), chunk, overlap, chunks == [] && here == []);
    assert chunks + (here + rest) == (chunks + here) + rest;
    assert chunks + [] == chunks;
  }

  lemma {:induction false} NoWindows(cleaned: string, start: nat, chunk: nat, overlap: nat, none: bool)
    requires overlap < chunk && start >= |cleaned|
    ensures Windows(cleaned, start, chunk, overlap, none) == []
  {
  }

  /** The windowing loop. */
  method CollectWindows(cleaned: string, chunk: nat, overlap: nat) returns (chunks: seq<string>)
    requires overlap < chunk
    ensures chunks == Windows(cleaned, 0, chunk, overlap, true)
  {
    hide Window, Windows;
    var step := chunk - overlap;
    var start := 0;
    chunks := [];
    ghost var goal := Windows(cleaned, 0, chunk, overlap, true);
    assert [] + goal == goal;
    while start < |cleaned|
      invariant 0 <= start
      invariant chunks + Windows(cleaned, start, chunk, overlap, chunks == []) == goal
    {
      WindowsUnfold(cleaned, start, chunk, overlap, chunks);
      var w := Window(cleaned, start, chunk);
      if |w| >= MIN_CHUNK_CHARS || (chunks == [] && w != "") {
        chunks := chunks + [w];
      }
      if start + chunk >= |cleaned| {
        return;
      }
      start := start + step;
    }
    NoWindows(cleaned, start, chunk, overlap, chunks == []);
    assert chunks + [] == chunks;
  }

  /** `chunk_text`. */
  method ChunkText(text: string, chunk: int, overlap: int) returns (r: Result<seq<string>, BadWindow>)
    ensures r == ChunksOf(text, chunk, overlap)
  {
    hide Strip, Windows;
    if chunk <= 0 {
      return Err(ChunkNotPositive);
    }
    if overlap < 0 {
      return Err(OverlapNegative);
    }
    if overlap >= chunk {
      return Err(OverlapTooLarge);
    }
    var chunks := CollectWindows(Strip(text), chunk, overlap);
    return Ok(chunks);
  }

  // ----- what the chunks are -----

  /** A chunk holds at most one window of characters, and only the first may fall below the floor. */
  lemma {:induction false} ChunksFit(cleaned: string, start: nat, chunk: nat, overlap: nat, none: bool)
    requires overlap < chunk
    ensures var chunks := Windows(cleaned, start, chunk, overlap, none);
            && (forall k :: 0 <= k < |chunks| ==> 0 < |chunks[k]| <= chunk)
            && (forall k :: 0 <= k < |chunks| && (k > 0 || !none) ==> |chunks[k]| >= MIN_CHUNK_CHARS)
    decreases |cleaned| - start
  {
    hide Window;
    if start < |cleaned| {
      var w := Window(cleaned, start, chunk);
      var here := if |w| >= MIN_CHUNK_CHARS || (none && w != "") then [w] else [];
      if start + chunk >= |cleaned| {
        assert Windows(cleaned, start, chunk, overlap, none) == here;
      } else {
        ChunksFit(cleaned, start + (chunk - overlap), chunk, overlap, none && here == []);
        assert Windows(cleaned, start, chunk, overlap, none)
               == here + Windows(cleaned, start + (chunk - overlap), chunk, overlap, none && here == []);
      }
    }
  }

  /** Where the `n`th window begins. */
  function WindowStart(start: nat, step: nat, n: nat): nat {
    if n == 0 then start else WindowStart(start, step, n - 1) + step
  }

  lemma {:induction false} LaterWindow(start: nat, step: nat, n: nat)
    ensures WindowStart(start + step, step, n) == WindowStart(start, step, n + 1)
  {
    if n > 0 {
      LaterWindow(start, step, n - 1);
    }
  }

  /** Chunk `k` is window number `numbers[k]`, and the numbers increase. */
  ghost predicate InTextOrder(cleaned: string, start: nat, chunk: nat, overlap: nat, chunks: seq<string>,
                              numbers: seq<nat>)
    requires overlap < chunk
  {
    && |numbers| == |chunks|
    && (forall k :: 0 <= k < |numbers| ==>
          var at := WindowStart(start, chunk - overlap, numbers[k]);
          at < |cleaned| && chunks[k] == Window(cleaned, at, chunk))
    && (forall j, k :: 0 <= j < k < |numbers| ==> numbers[j] < numbers[k])
  }

  /** Chunks come in the order of the text, each cut where the overlap puts it. */
  lemma {:induction false} ChunksAreInOrder(cleaned: string, start: nat, chunk: nat, overlap: nat, none: bool)
      returns (numbers: seq<nat>)
    requires overlap < chunk
    ensures InTextOrder(cleaned, start, chunk, overlap, Windows(cleaned, start, chunk, overlap, none), numbers)
    decreases |cleaned| - start
  {
    hide Window;
    if start >= |cleaned| {
      numbers := [];
    } else {
      var w, step := Window(cleaned, start, chunk), chunk - overlap;
      var here := if |w| >= MIN_CHUNK_CHARS || (none && w != "") then [w] else [];
      var first: seq<nat> := if here == [] then [] else [0];
      if start + chunk >= |cleaned| {
        numbers := first;
      } else {
        var rest := ChunksAreInOrder(cleaned, start + step, chunk, overlap, none && here == []);
        var later := Windows(cleaned, start + step, chunk, overlap, none && here == []);
        numbers := first + seq(|rest|, k requires 0 <= k < |rest| => rest[k] + 1);
        FirstThenRest(cleaned, start, chunk, overlap, here, first, later, rest);
      }
    }
  }

  lemma {:induction false} FirstThenRest(cleaned: string, start: nat, chunk: nat, overlap: nat, here: seq<string>,
                                         first: seq<nat>, later: seq<string>, rest: seq<nat>)
    requires overlap < chunk && start < |cleaned|
    requires (here == [] && first == []) || (here == [Window(cleaned, start, chunk)] && first == [0])
    requires InTextOrder(cleaned, start + (chunk - overlap), chunk, overlap, later, rest)
    ensures InTextOrder(cleaned, start, chunk, overlap, here + later,
                        first + seq(|rest|, k requires 0 <= k < |rest| => rest[k] + 1))
  {
    hide Window;
    forall k | 0 <= k < |rest|
      ensures WindowStart(start, chunk - overlap, rest[k] + 1)
              == WindowStart(start + (chunk - overlap), chunk - overlap, rest[k])
    {
      LaterWindow(start, chunk - overlap, rest[k]);
    }
  }

  /** `part` lies whole inside some chunk. */
  ghost predicate Covered(part: string, chunks: seq<string>) {
    exists k :: 0 <= k < |chunks| && Occurs(part, chunks[k])
  }

  lemma {:induction false} OccursLength(part: string, whole: string)
    requires Occurs(part, whole)
    ensures |part| <= |whole|
  {
  }

  lemma {:induction false} CoveredAfter(part: string, before: seq<string>, chunks: seq<string>)
    requires Covered(part, chunks)
    ensures Covered(part, before + chunks)
  {
    var k :| 0 <= k < |chunks| && Occurs(part, chunks[k]);
    assert (before + chunks)[|before| + k] == chunks[k];
  }

  lemma {:induction false} CoveredBefore(part: string, here: string, chunks: seq<string>)
    requires Occurs(part, here)
    ensures Covered(part, [here] + chunks) && Covered(part, [here])
  {
    assert ([here] + chunks)[0] == here && [here][0] == here;
  }

  /** A stretch inside the window at `start` survives in its chunk. */
  lemma {:induction false} InsideWindow(cleaned: string, start: nat, chunk: nat, a: nat, b: nat)
    requires start <= a < b <= |cleaned| && (b <= start + chunk || |cleaned| <= start + chunk)
    requires !IsSpace(cleaned[a]) && !IsSpace(cleaned[b - 1])
    ensures Occurs(cleaned[a..b], Window(cleaned, start, chunk))
  {
    hide Strip, IsSpace, Occurs;
    var end := if start + chunk < |cleaned| then start + chunk else |cleaned|;
    var window := cleaned[start..end];
    assert cleaned[start..] == cleaned[start..|cleaned|];
    assert window[a - start..b - start] == cleaned[a..b];
    assert window[a - start] == cleaned[a] && window[b - 1 - start] == cleaned[b - 1];
    StripKeeps(window, a - start, b - start);
  }

  lemma {:induction false} StretchesAreCovered(cleaned: string, start: nat, chunk: nat, overlap: nat, none: bool,
                                               a: nat, b: nat)
    requires overlap < chunk
    requires start <= a && MIN_CHUNK_CHARS <= b - a <= overlap + 1 && b <= |cleaned|
    requires !IsSpace(cleaned[a]) && !IsSpace(cleaned[b - 1])
    ensures Covered(cleaned[a..b], Windows(cleaned, start, chunk, overlap, none))
    decreases |cleaned| - start
  {
    hide Strip, Occurs, Covered, Window;
    var part, w := cleaned[a..b], Window(cleaned, start, chunk);
    var here := if |w| >= MIN_CHUNK_CHARS || (none && w != "") then [w] else [];
    var rest := if start + chunk >= |cleaned| then []
                else Windows(cleaned, start + (chunk - overlap), chunk, overlap, none && here == []);
    assert Windows(cleaned, start, chunk, overlap, none) == here + rest;
    if b <= start + chunk || |cleaned| <= start + chunk {
      InsideWindow(cleaned, start, chunk, a, b);
      OccursLength(part, w);
      CoveredBefore(part, w, rest);
    } else {
      StretchesAreCovered(cleaned, start + (chunk - overlap), chunk, overlap, none && here == [], a, b);
      CoveredAfter(part, here, rest);
    }
  }

  /**
   For every admissible window: chunks are no longer than it; text that is not blank gives at least one, and
   blank text none; and every stretch of the stripped text of 50 to overlap + 1 characters that starts and ends
   on a non-space lies whole inside a chunk.
   */
  lemma {:induction false} ChunkContract(text: string, chunk: int, overlap: int)
    requires 0 <= overlap < chunk
    ensures ChunksOf(text, chunk, overlap).Ok?
    ensures var cleaned, chunks := Strip(text), ChunksOf(text, chunk, overlap).value;
            && (forall k :: 0 <= k < |chunks| ==> 0 < |chunks[k]| <= chunk)
            && (chunks == [] <==> forall k :: 0 <= k < |text| ==> IsSpace(text[k]))
            && (forall a, b :: 0 <= a && MIN_CHUNK_CHARS <= b - a <= overlap + 1 && b <= |cleaned|
                               && !IsSpace(cleaned[a]) && !IsSpace(cleaned[b - 1])
                               ==> Covered(cleaned[a..b], chunks))
  {
    hide Covered, Strip, IsSpace, Windows;
    var cleaned := Strip(text);
    assert ChunksOf(text, chunk, overlap) == Ok(Windows(cleaned, 0, chunk, overlap, true));
    ChunksFit(cleaned, 0, chunk, overlap, true);
    SomeChunk(text, chunk, overlap);
    forall a, b | 0 <= a && MIN_CHUNK_CHARS <= b - a <= overlap + 1 && b <= |cleaned|
                  && !IsSpace(cleaned[a]) && !IsSpace(cleaned[b - 1])
      ensures Covered(cleaned[a..b], ChunksOf(text, chunk, overlap).value)
    {
      StretchesAreCovered(cleaned, 0, chunk, overlap, true, a, b);
    }
  }

  /** Every chunk is a piece of the text. */
  lemma {:induction false} ChunksAreOfTheText(text: string, chunk: int, overlap: int)
    requires 0 <= overlap < chunk
    ensures forall part <- ChunksOf(text, chunk, overlap).value :: Occurs(part, text)
  {
    hide Strip, Windows, Window, Occurs;
    var cleaned := Strip(text);
    StripOccurs(text);
    var chunks := Windows(cleaned, 0, chunk, overlap, true);
    var numbers := ChunksAreInOrder(cleaned, 0, chunk, overlap, true);
    forall part | part in chunks ensures Occurs(part, text) {
      var k :| 0 <= k < |chunks| && chunks[k] == part;
      WindowOccurs(cleaned, WindowStart(0, chunk - overlap, numbers[k]), chunk);
      OccursThrough(part, cleaned, text);
    }
  }

  lemma {:induction false} WindowOccurs(cleaned: string, start: nat, chunk: nat)
    requires start < |cleaned|
    ensures Occurs(Window(cleaned, start, chunk), cleaned)
  {
    hide Strip, Occurs;
    var end := if start + chunk < |cleaned| then start + chunk else |cleaned|;
    assert cleaned[start..] == cleaned[start..|cleaned|];
    StripOccurs(cleaned[start..end]);
    SliceOccurs(cleaned, start, end);
    OccursThrough(Window(cleaned, start, chunk), cleaned[start..end], cleaned);
  }

  lemma {:induction false} SomeChunk(text: string, chunk: nat, overlap: nat)
    requires overlap < chunk
    ensures Windows(Strip(text), 0, chunk, overlap, true) == [] <==> forall k :: 0 <= k < |text| ==> IsSpace(text[k])
  {
    hide Strip, IsSpace, Window;
    StripEnds(text);
    var cleaned := Strip(text);
    if cleaned != "" {
      FirstWindow(cleaned, chunk);
    }
  }

  lemma {:induction false} FirstWindow(cleaned: string, chunk: nat)
    requires cleaned != "" && !IsSpace(cleaned[0]) && chunk > 0
    ensures Window(cleaned, 0, chunk) != ""
  {
    StripEnds(if chunk < |cleaned| then cleaned[0..chunk] else cleaned[0..]);
  }
}
