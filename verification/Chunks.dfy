/** The overlapping text chunker of chunk-text.util.ts. */
module Chunks {
  import opened Collections

  // JavaScript strings are sequences of UTF-16 code units, and so are slices of them.
  type CodeUnit = n: int | 0 <= n < 0x1_0000
  type Units = seq<CodeUnit>

  const SPACE: CodeUnit := 0x20
  const CHUNK_SIZE := 800
  const CHUNK_OVERLAP := 150

  /** White space as `\s` and `trim` understand it (sections 12.2 and 12.3 of ECMA-262). */
  predicate IsSpace(n: CodeUnit) {
    9 <= n <= 13 || n == 0x20 || n == 0xA0 || n == 0x1680 || 0x2000 <= n <= 0x200A || n == 0x2028 || n == 0x2029
    || n == 0x202F || n == 0x205F || n == 0x3000 || n == 0xFEFF
  }

  // The characters with the names WhiteSpace and LineTerminator, one by one.
  const WHITE_SPACE: set<int> := {
    0x0009, 0x000A, 0x000B, 0x000C, 0x000D, 0x0020, 0x00A0, 0x1680,
    0x2000, 0x2001, 0x2002, 0x2003, 0x2004, 0x2005, 0x2006, 0x2007, 0x2008, 0x2009, 0x200A,
    0x2028, 0x2029, 0x202F, 0x205F, 0x3000, 0xFEFF}

  lemma SpacesAreWhiteSpace(n: CodeUnit)
    ensures IsSpace(n) <==> n in WHITE_SPACE
  {
  }

  // ------------------------------------------------------------------ normalization

  function SkipSpaces(s: Units): Units {
    if s != [] && IsSpace(s[0]) then SkipSpaces(s[1..]) else s
  }

  function DropSpaces(s: Units): Units {
    if s != [] && IsSpace(s[|s| - 1]) then DropSpaces(s[..|s| - 1]) else s
  }

  function Trim(s: Units): Units {
    DropSpaces(SkipSpaces(s))
  }

  /** `replace(/\s+/g, ' ')`; `inRun`: the character before was white space. */
  function Collapse(s: Units, inRun: bool): Units {
    if s == [] then []
    else if IsSpace(s[0]) then (if inRun then [] else [SPACE]) + Collapse(s[1..], true)
    else [s[0]] + Collapse(s[1..], false)
  }

  function Normalized(text: Units): Units {
    Trim(Collapse(text, false))
  }

  /** The code units that are not white space, in order. */
  function Ink(s: Units): Units {
    if s == [] then [] else (if IsSpace(s[0]) then [] else [s[0]]) + Ink(s[1..])
  }

  lemma {:induction false} InkJoin(a: Units, b: Units)
    ensures Ink(a + b) == Ink(a) + Ink(b)
  {
    if a == [] {
      assert a + b == b;
    } else {
      assert (a + b)[1..] == a[1..] + b;
      InkJoin(a[1..], b);
    }
  }

  lemma {:induction false} SkipKeepsInk(s: Units)
    ensures Ink(SkipSpaces(s)) == Ink(s)
  {
    if s != [] && IsSpace(s[0]) {
      SkipKeepsInk(s[1..]);
    }
  }

  lemma {:induction false} DropKeepsInk(s: Units)
    ensures Ink(DropSpaces(s)) == Ink(s)
  {
    if s != [] && IsSpace(s[|s| - 1]) {
      InitAndLast(s);
      InkJoin(s[..|s| - 1], [s[|s| - 1]]);
      DropKeepsInk(s[..|s| - 1]);
    }
  }

  /** Trimming loses nothing but white space. */
  lemma TrimKeepsInk(s: Units)
    ensures Ink(Trim(s)) == Ink(s)
  {
    SkipKeepsInk(s);
    DropKeepsInk(SkipSpaces(s));
  }

  lemma {:induction false} CollapseKeepsInk(s: Units, inRun: bool)
    ensures Ink(Collapse(s, inRun)) == Ink(s)
  {
    if s != [] {
      CollapseKeepsInk(s[1..], IsSpace(s[0]));
      var rest := Collapse(s[1..], IsSpace(s[0]));
      assert IsSpace(SPACE);
      InkJoin(if !IsSpace(s[0]) then [s[0]] else if inRun then [] else [SPACE], rest);
    }
  }

  /** Normalization changes white space only. */
  lemma NormalizedKeepsInk(text: Units)
    ensures Ink(Normalized(text)) == Ink(text)
  {
    CollapseKeepsInk(text, false);
    TrimKeepsInk(Collapse(text, false));
  }

  /** Each code unit that is not white space, and whether white space comes before it: the words of a text. */
  function Words(s: Units, gap: bool): seq<(CodeUnit, bool)> {
    if s == [] then []
    else if IsSpace(s[0]) then Words(s[1..], true)
    else [(s[0], gap)] + Words(s[1..], false)
  }

  lemma {:induction false} WordsBeforeSpace(s: Units, gap: bool, space: CodeUnit)
    requires IsSpace(space)
    ensures Words(s + [space], gap) == Words(s, gap)
  {
    if s == [] {
      assert (s + [space])[1..] == [];
    } else {
      CutBeforeJoin(s, [space], 1);
      WordsBeforeSpace(s[1..], IsSpace(s[0]), space);
    }
  }

  lemma {:induction false} DropKeepsWords(s: Units, gap: bool)
    ensures Words(DropSpaces(s), gap) == Words(s, gap)
  {
    if s != [] && IsSpace(s[|s| - 1]) {
      InitAndLast(s);
      WordsBeforeSpace(s[..|s| - 1], gap, s[|s| - 1]);
      DropKeepsWords(s[..|s| - 1], gap);
    }
  }

  lemma {:induction false} SkipKeepsWords(s: Units)
    ensures Words(SkipSpaces(s), true) == Words(s, true)
  {
    if s != [] && IsSpace(s[0]) {
      SkipKeepsWords(s[1..]);
    }
  }

  lemma {:induction false} CollapseKeepsWords(s: Units, inRun: bool, gap: bool)
    requires inRun ==> gap
    ensures Words(Collapse(s, inRun), gap) == Words(s, gap)
  {
    if s != [] {
      var rest := Collapse(s[1..], IsSpace(s[0]));
      CollapseKeepsWords(s[1..], IsSpace(s[0]), IsSpace(s[0]));
      assert IsSpace(SPACE) && ([SPACE] + rest)[1..] == rest && ([s[0]] + rest)[1..] == rest;
      assert [] + rest == rest;
    }
  }

  /** Normalization neither joins two words nor splits one. */
  lemma NormalizedKeepsWords(text: Units)
    ensures Words(Normalized(text), true) == Words(text, true)
  {
    var collapsed := Collapse(text, false);
    CollapseKeepsWords(text, false, true);
    SkipKeepsWords(collapsed);
    DropKeepsWords(SkipSpaces(collapsed), true);
  }

  lemma {:induction false} CollapseWritesSpaces(s: Units, inRun: bool)
    ensures forall i :: 0 <= i < |Collapse(s, inRun)| && IsSpace(Collapse(s, inRun)[i]) ==>
      Collapse(s, inRun)[i] == 0x20
  {
    if s != [] {
      CollapseWritesSpaces(s[1..], IsSpace(s[0]));
    }
  }

  /** No two white-space characters in a row. */
  predicate SingleSpaced(s: Units) {
    forall i :: 0 <= i < |s| - 1 ==> !(IsSpace(s[i]) && IsSpace(s[i + 1]))
  }

  predicate Trimmed(s: Units) {
    s != [] ==> !IsSpace(s[0]) && !IsSpace(s[|s| - 1])
  }

  lemma {:induction false} CollapseIsSingleSpaced(s: Units, inRun: bool)
    ensures SingleSpaced(Collapse(s, inRun))
    ensures inRun && Collapse(s, inRun) != [] ==> !IsSpace(Collapse(s, inRun)[0])
  {
    if s != [] {
      CollapseIsSingleSpaced(s[1..], IsSpace(s[0]));
    }
  }

  lemma {:induction false} SkipIsSuffix(s: Units)
    ensures var t := SkipSpaces(s);
      |t| <= |s| && t == s[|s| - |t|..] && (t != [] ==> !IsSpace(t[0]))
  {
    if s != [] && IsSpace(s[0]) {
      SkipIsSuffix(s[1..]);
    }
  }

  lemma {:induction false} DropIsPrefix(s: Units)
    ensures var t := DropSpaces(s);
      |t| <= |s| && t == s[..|t|] && (t != [] ==> !IsSpace(t[|t| - 1]))
  {
    if s != [] && IsSpace(s[|s| - 1]) {
      DropIsPrefix(s[..|s| - 1]);
    }
  }

  lemma NormalizedIsTidy(text: Units)
    ensures SingleSpaced(Normalized(text)) && Trimmed(Normalized(text))
    ensures forall i :: 0 <= i < |Normalized(text)| && IsSpace(Normalized(text)[i]) ==> Normalized(text)[i] == 0x20
  {
    CollapseWritesSpaces(text, false);
    var collapsed := Collapse(text, false);
    var skipped := SkipSpaces(collapsed);
    CollapseIsSingleSpaced(text, false);
    SkipIsSuffix(collapsed);
    DropIsPrefix(skipped);
    var from := |collapsed| - |skipped|;
    forall i | 0 <= i < |Normalized(text)| - 1
      ensures !(IsSpace(Normalized(text)[i]) && IsSpace(Normalized(text)[i + 1]))
    {
      assert Normalized(text)[i] == skipped[i] == collapsed[from + i];
      assert Normalized(text)[i + 1] == skipped[i + 1] == collapsed[from + i + 1];
    }
  }

  // ------------------------------------------------------------------ windows

  function Min(a: int, b: int): int {
    if a < b then a else b
  }

  /** The windows from `start` on, before trimming. */
  function Windows(s: Units, start: nat, size: nat, overlap: nat): seq<Units>
    requires start < |s| && size > 0 && (overlap < size || start + size >= |s|)
    decreases |s| - start
  {
    var end := Min(start + size, |s|);
    if end == |s| then [s[start..end]] else [s[start..end]] + Windows(s, end - overlap, size, overlap)
  }

  lemma NextWindow(s: Units, start: nat, size: nat, overlap: nat, done: seq<Units>)
    requires start + size < |s| && overlap < size
    ensures done + Windows(s, start, size, overlap)
         == done + [s[start..start + size]] + Windows(s, start + size - overlap, size, overlap)
  {
    JoinAssociates(done, [s[start..start + size]], Windows(s, start + size - overlap, size, overlap));
  }

  /** The trimmed windows, without those that trimming leaves empty. */
  function Trims(windows: seq<Units>): seq<Units> {
    if windows == [] then []
    else
      var chunk := Trim(windows[|windows| - 1]);
      Trims(windows[..|windows| - 1]) + (if chunk == [] then [] else [chunk])
  }

  lemma TrimsSnoc(done: seq<Units>, window: Units)
    ensures Trims(done + [window]) == if Trim(window) == [] then Trims(done) else Trims(done) + [Trim(window)]
  {
    SnocInit(done, window);
  }

  /** The chunk list that the source promises. */
  function Chunked(s: Units, size: nat, overlap: nat): seq<Units>
    requires size > 0 && (overlap < size || size >= |s|)
  {
    if s == [] then [] else Trims(Windows(s, 0, size, overlap))
  }

  /** `chunkText`. */
  method ChunkText(text: Units, chunkSize: nat := CHUNK_SIZE,
                   overlap: nat := CHUNK_OVERLAP) returns (chunks: seq<Units>)
    requires chunkSize > 0 && (overlap < chunkSize || chunkSize >= |Normalized(text)|)
    ensures chunks == Chunked(Normalized(text), chunkSize, overlap)
  {
    var normalized := Normalized(text);
    if normalized == [] {
      return [];
    }
    chunks := [];
    var start := 0;
    ghost var all := Windows(normalized, 0, chunkSize, overlap);
    ghost var done: seq<Units> := [];
    while start < |normalized|
      invariant 0 <= start < |normalized| && (overlap < chunkSize || start + chunkSize >= |normalized|)
      invariant all == done + Windows(normalized, start, chunkSize, overlap)
      invariant chunks == Trims(done)
      decreases |normalized| - start
    {
      var end := Min(start + chunkSize, |normalized|);
      var window := normalized[start..end];
      var chunk := Trim(window);
      TrimsSnoc(done, window);
      if chunk != [] {
        chunks := chunks + [chunk];
      }
      if end == |normalized| {
        break;
      }
      NextWindow(normalized, start, chunkSize, overlap, done);
      done := done + [window];
      start := end - overlap;
    }
  }

  // ------------------------------------------------------------------ the windows cover the text

  function Drop(s: Units, n: nat): Units {
    s[Min(n, |s|)..]
  }

  /** Each window without its first `overlap` characters, joined. */
  function Tails(windows: seq<Units>, overlap: nat): Units {
    if windows == [] then [] else Drop(windows[0], overlap) + Tails(windows[1..], overlap)
  }

  function Rejoined(windows: seq<Units>, overlap: nat): Units
    requires windows != []
  {
    windows[0] + Tails(windows[1..], overlap)
  }

  lemma {:induction false} TailsOfWindows(s: Units, start: nat, size: nat, overlap: nat)
    requires start < |s| && overlap < size && start + overlap <= |s|
    ensures Tails(Windows(s, start, size, overlap), overlap) == s[start + overlap..]
    decreases |s| - start
  {
    var end := Min(start + size, |s|);
    TailOfWindow(s, start, end, overlap);
    if end < |s| {
      TailsOfWindows(s, end - overlap, size, overlap);
      TailsHead(s[start..end], Windows(s, end - overlap, size, overlap), overlap);
      SlicesMeet(s, start + overlap, end);
    }
  }

  lemma TailOfWindow(s: Units, start: nat, end: nat, overlap: nat)
    requires start + overlap <= end <= |s|
    ensures Tails([s[start..end]], overlap) == s[start + overlap..end]
  {
    TailsHead(s[start..end], [], overlap);
    SliceOfSlice(s, start, end, overlap, end - start);
  }

  lemma TailsHead(window: Units, later: seq<Units>, overlap: nat)
    ensures Tails([window] + later, overlap) == Drop(window, overlap) + Tails(later, overlap)
    ensures Tails([window], overlap) == Drop(window, overlap)
  {
    assert ([window] + later)[1..] == later;
  }

  lemma SlicesMeet(s: Units, from: nat, to: nat)
    requires from <= to <= |s|
    ensures s[from..to] + s[to..] == s[from..]
  {
  }

  /** The windows, each later one without the part it repeats, are the text. */
  lemma WindowsRejoin(s: Units, size: nat, overlap: nat)
    requires s != [] && size > 0 && (overlap < size || size >= |s|)
    ensures Rejoined(Windows(s, 0, size, overlap), overlap) == s
  {
    var end := Min(size, |s|);
    if end < |s| {
      TailsOfWindows(s, end - overlap, size, overlap);
      assert s[..end] + s[end..] == s;
    }
  }

  lemma {:induction false} TrimsJoin(a: seq<Units>, b: seq<Units>)
    ensures Trims(a + b) == Trims(a) + Trims(b)
    decreases |b|
  {
    if b == [] {
      assert a + b == a;
    } else {
      assert (a + b)[..|a + b| - 1] == a + b[..|b| - 1];
      TrimsJoin(a, b[..|b| - 1]);
    }
  }

  lemma TrimIsSlice(s: Units) returns (at: nat)
    ensures at + |Trim(s)| <= |s| && Trim(s) == s[at..at + |Trim(s)|]
    ensures forall k :: 0 <= k < |s| && !IsSpace(s[k]) ==> at <= k < at + |Trim(s)|
    ensures Trimmed(Trim(s))
  {
    SkipIsSuffix(s);
    DropIsPrefix(SkipSpaces(s));
    SkippedAreSpaces(s);
    DroppedAreSpaces(SkipSpaces(s));
    at := |s| - |SkipSpaces(s)|;
    forall k | 0 <= k < |s| && !IsSpace(s[k])
      ensures at <= k < at + |Trim(s)|
    {
      assert k >= at ==> SkipSpaces(s)[k - at] == s[k];
    }
  }

  lemma {:induction false} SkippedAreSpaces(s: Units)
    ensures forall k :: 0 <= k < |s| - |SkipSpaces(s)| ==> IsSpace(s[k])
  {
    if s != [] && IsSpace(s[0]) {
      SkippedAreSpaces(s[1..]);
      SkipIsSuffix(s[1..]);
      assert forall k :: 1 <= k < |s| ==> s[k] == s[1..][k - 1];
    }
  }

  lemma {:induction false} DroppedAreSpaces(s: Units)
    ensures forall k :: |DropSpaces(s)| <= k < |s| ==> IsSpace(s[k])
  {
    if s != [] && IsSpace(s[|s| - 1]) {
      DroppedAreSpaces(s[..|s| - 1]);
      assert forall k :: 0 <= k < |s| - 1 ==> s[k] == s[..|s| - 1][k];
    }
  }

  /** Some chunk is a stretch of `s` that contains position `k`. */
  ghost predicate Covered(chunks: seq<Units>, s: Units, k: nat) {
    exists i, at :: 0 <= i < |chunks| && StretchWith(chunks[i], at, s, k)
  }

  predicate StretchWith(chunk: Units, at: nat, s: Units, k: nat) {
    at <= k < at + |chunk| <= |s| && chunk == s[at..at + |chunk|]
  }

  lemma CoveredJoin(a: seq<Units>, b: seq<Units>, s: Units, k: nat)
    requires Covered(a, s, k) || Covered(b, s, k)
    ensures Covered(a + b, s, k)
  {
    if Covered(a, s, k) {
      var i, at :| 0 <= i < |a| && StretchWith(a[i], at, s, k);
      assert (a + b)[i] == a[i];
    } else {
      var i, at :| 0 <= i < |b| && StretchWith(b[i], at, s, k);
      assert (a + b)[|a| + i] == b[i];
    }
  }

  lemma CoveredByWindow(s: Units, start: nat, end: nat, k: nat)
    requires start <= k < end <= |s| && !IsSpace(s[k])
    ensures Covered(Trims([s[start..end]]), s, k)
  {
    var window := s[start..end];
    var at := TrimIsSlice(window);
    assert window[k - start] == s[k];
    assert Trims([window]) == [Trim(window)];
    SliceOfSlice(s, start, end, at, at + |Trim(window)|);
    assert StretchWith(Trim(window), start + at, s, k);
    assert [Trim(window)][0] == Trim(window);
  }

  lemma CoveredTogether(window: Units, later: seq<Units>, s: Units, k: nat)
    requires Covered(Trims([window]), s, k) || Covered(Trims(later), s, k)
    ensures Covered(Trims([window] + later), s, k)
  {
    TrimsJoin([window], later);
    CoveredJoin(Trims([window]), Trims(later), s, k);
  }

  lemma {:induction false} CoveredFrom(s: Units, start: nat, size: nat, overlap: nat, k: nat)
    requires start <= k < |s| && !IsSpace(s[k]) && size > 0 && (overlap < size || start + size >= |s|)
    ensures Covered(Trims(Windows(s, start, size, overlap)), s, k)
    decreases |s| - start
  {
    var end := Min(start + size, |s|);
    if k < end {
      CoveredByWindow(s, start, end, k);
    } else {
      CoveredFrom(s, end - overlap, size, overlap, k);
    }
    if end < |s| {
      CoveredTogether(s[start..end], Windows(s, end - overlap, size, overlap), s, k);
    }
  }

  /** No character but white space is lost: each one of the normalized text is inside some chunk. */
  lemma NothingLost(text: Units, size: nat, overlap: nat, k: nat)
    requires size > 0 && (overlap < size || size >= |Normalized(text)|)
    requires k < |Normalized(text)| && !IsSpace(Normalized(text)[k])
    ensures Covered(Chunked(Normalized(text), size, overlap), Normalized(text), k)
  {
    CoveredFrom(Normalized(text), 0, size, overlap, k);
  }

  /** The windows start every `size - overlap` code units, are full but for the last, and end with the text. */
  lemma {:induction false} WindowsAre(s: Units, start: nat, size: nat, overlap: nat, i: nat)
    requires start < |s| && overlap < size && i < |Windows(s, start, size, overlap)|
    ensures var from := start + i * (size - overlap);
      && from < |s| && Windows(s, start, size, overlap)[i] == s[from..Min(from + size, |s|)]
      && (i == |Windows(s, start, size, overlap)| - 1 <==> from + size >= |s|)
    decreases i
  {
    var end := Min(start + size, |s|);
    if i > 0 {
      WindowsAre(s, end - overlap, size, overlap, i - 1);
      assert i * (size - overlap) == (i - 1) * (size - overlap) + (size - overlap);
    }
  }

  // ------------------------------------------------------------------ the chunks

  /** Every chunk is non-empty, starts and ends with ink and is no longer than a window. */
  predicate ChunkOk(chunk: Units, size: nat) {
    chunk != [] && Trimmed(chunk) && |chunk| <= size
  }

  lemma {:induction false} TrimsAreOk(windows: seq<Units>, size: nat)
    requires forall i :: 0 <= i < |windows| ==> |windows[i]| <= size
    ensures forall i :: 0 <= i < |Trims(windows)| ==> ChunkOk(Trims(windows)[i], size)
  {
    if windows != [] {
      TrimsAreOk(windows[..|windows| - 1], size);
      var at := TrimIsSlice(windows[|windows| - 1]);
    }
  }

  lemma {:induction false} WindowSizes(s: Units, start: nat, size: nat, overlap: nat)
    requires start < |s| && size > 0 && (overlap < size || start + size >= |s|)
    ensures forall i :: 0 <= i < |Windows(s, start, size, overlap)| ==>
      1 <= |Windows(s, start, size, overlap)[i]| <= size
    decreases |s| - start
  {
    var end := Min(start + size, |s|);
    if end < |s| {
      WindowSizes(s, end - overlap, size, overlap);
    }
  }

  lemma ChunksAreOk(text: Units, size: nat, overlap: nat)
    requires size > 0 && (overlap < size || size >= |Normalized(text)|)
    ensures var chunks := Chunked(Normalized(text), size, overlap);
      forall i :: 0 <= i < |chunks| ==> ChunkOk(chunks[i], size)
  {
    if Normalized(text) != [] {
      WindowSizes(Normalized(text), 0, size, overlap);
      TrimsAreOk(Windows(Normalized(text), 0, size, overlap), size);
    }
  }

  predicate Inked(s: Units) {
    exists i :: 0 <= i < |s| && !IsSpace(s[i])
  }

  ghost predicate AllInked(windows: seq<Units>) {
    forall i :: 0 <= i < |windows| ==> Inked(windows[i])
  }

  lemma {:induction false} WindowsHaveInk(s: Units, start: nat, size: nat, overlap: nat)
    requires SingleSpaced(s) && Trimmed(s) && start < |s| && 1 <= overlap < size
    requires start == 0 || start + overlap < |s|
    ensures AllInked(Windows(s, start, size, overlap))
    decreases |s| - start
  {
    var end := Min(start + size, |s|);
    WindowHasInk(s, start, end);
    if end < |s| {
      WindowsHaveInk(s, end - overlap, size, overlap);
    }
  }

  lemma WindowHasInk(s: Units, start: nat, end: nat)
    requires SingleSpaced(s) && Trimmed(s) && start < end <= |s|
    requires start == 0 || start + 1 < end
    ensures Inked(s[start..end])
  {
    var inked := if IsSpace(s[start]) then 1 else 0;
    assert s[start..end][inked] == s[start + inked] && !IsSpace(s[start..end][inked]);
  }

  lemma {:induction false} InkedAreKept(windows: seq<Units>)
    requires AllInked(windows)
    ensures |Trims(windows)| == |windows|
  {
    if windows != [] {
      InkedAreKept(windows[..|windows| - 1]);
      InkSurvivesTrim(windows[|windows| - 1]);
    }
  }

  lemma InkSurvivesTrim(s: Units)
    requires Inked(s)
    ensures Trim(s) != []
  {
    var at := TrimIsSlice(s);
  }

  /** With a real overlap no window is blank: there is one chunk a window, none is skipped. */
  lemma OneChunkPerWindow(text: Units, size: nat, overlap: nat)
    requires 1 <= overlap < size && Normalized(text) != []
    ensures |Chunked(Normalized(text), size, overlap)| == |Windows(Normalized(text), 0, size, overlap)|
  {
    NormalizedIsTidy(text);
    WindowsHaveInk(Normalized(text), 0, size, overlap);
    InkedAreKept(Windows(Normalized(text), 0, size, overlap));
  }

  // ------------------------------------------------------------------ termination

  /** Where the loop stands after some rounds on a text of length `n`, leaving out the exit. */
  function StartAfter(n: nat, size: nat, overlap: nat, rounds: nat): int {
    if rounds == 0 then 0 else Min(StartAfter(n, size, overlap, rounds - 1) + size, n) - overlap
  }

  /** The loop guard is false or the exit is taken. */
  predicate Stops(n: nat, size: nat, overlap: nat, rounds: nat) {
    var start := StartAfter(n, size, overlap, rounds);
    start >= n || start + size >= n
  }

  lemma {:induction false} Advances(n: nat, size: nat, overlap: nat, rounds: nat)
    requires overlap < size
    ensures Stops(n, size, overlap, rounds) || StartAfter(n, size, overlap, rounds) >= rounds
  {
    if rounds > 0 {
      Advances(n, size, overlap, rounds - 1);
    }
  }

  lemma {:induction false} Stuck(n: nat, size: nat, overlap: nat, rounds: nat)
    requires overlap >= size && n > size
    ensures !Stops(n, size, overlap, rounds) && StartAfter(n, size, overlap, rounds) <= 0
  {
    if rounds > 0 {
      Stuck(n, size, overlap, rounds - 1);
    }
  }

  /** The loop ends exactly if windows overlap by less than their size, or one window is enough. */
  lemma EndsIff(n: nat, size: nat, overlap: nat)
    ensures (exists rounds :: Stops(n, size, overlap, rounds)) <==> overlap < size || n <= size
  {
    if overlap < size {
      Advances(n, size, overlap, n);
    } else if n <= size {
      assert Stops(n, size, overlap, 0);
    } else {
      forall rounds
        ensures !Stops(n, size, overlap, rounds)
      {
        Stuck(n, size, overlap, rounds);
      }
    }
  }
}
