/** The block that the installer manages inside a file that otherwise belongs to the user. */
module ManagedBlock {
  import opened FileBytes

  const LF: Byte := 10
  const CR: Byte := 13

  /** The two marker lines around the managed block. */
  datatype Marks = Marks(begin: Bytes, end: Bytes)

  predicate MarksOk(m: Marks) {
    m.begin != [] && m.end != [] && m.begin != m.end
    && LF !in m.begin && CR !in m.begin && LF !in m.end && CR !in m.end
  }

  /** The marker lines of the installer in ASCII: `<!-- BEGIN PERSONAL_MEMORY_INTEGRATION v1 -->`
      and the same with `END`. */
  function MarkLine(word: Bytes): Bytes {
    [60, 33, 45, 45, 32] + word + [32, 80, 69, 82, 83, 79, 78, 65, 76, 95]
    + [77, 69, 77, 79, 82, 89, 95] + [73, 78, 84, 69, 71, 82, 65, 84, 73, 79, 78]
    + [32, 118, 49, 32, 45, 45, 62]
  }

  const CODEX := Marks(MarkLine([66, 69, 71, 73, 78]), MarkLine([69, 78, 68]))

  predicate Plain(s: Bytes) {
    LF !in s && CR !in s
  }

  lemma {:induction false} PlainConcat(a: Bytes, b: Bytes)
    requires Plain(a) && Plain(b)
    ensures Plain(a + b)
  {
  }

  lemma {:induction false} MarkLinePlain(word: Bytes)
    requires Plain(word)
    ensures Plain(MarkLine(word))
  {
    PlainConcat([60, 33, 45, 45, 32], word);
    PlainConcat([60, 33, 45, 45, 32] + word, [32, 80, 69, 82, 83, 79, 78, 65, 76, 95]);
  }

  lemma {:induction false} CodexMarksOk()
    ensures MarksOk(CODEX)
  {
    MarkLinePlain([66, 69, 71, 73, 78]);
    MarkLinePlain([69, 78, 68]);
    assert |CODEX.begin| != |CODEX.end|;
  }

  datatype Result = Ok(bytes: Bytes) | Refused

  // ---------------------------------------------------------------- lines

  /** The lines of a text, without their line feeds; a text that ends with one has an empty last
      line. */
  function Lines(s: Bytes): (lines: seq<Bytes>)
    ensures lines != []
  {
    if s == [] then [[]]
    else
      var rest := Lines(s[1..]);
      if s[0] == LF then [[]] + rest else [[s[0]] + rest[0]] + rest[1..]
  }

  /** A line that holds the marker and nothing else, up to a carriage return. */
  predicate IsMarker(line: Bytes, marker: Bytes) {
    marker <= line && (|line| == |marker| || (|line| == |marker| + 1 && line[|marker|] == CR))
  }

  function Here(line: Bytes, marker: Bytes, base: int): (r: seq<int>)
    ensures |r| <= 1 && (r != [] ==> r == [base] && IsMarker(line, marker))
  {
    if IsMarker(line, marker) then [base] else []
  }

  /** Where the lines that consist of the marker start; the first line starts at `base`. */
  function MarkersOf(lines: seq<Bytes>, marker: Bytes, base: int): seq<int> {
    if lines == [] then []
    else Here(lines[0], marker, base) + MarkersOf(lines[1..], marker, base + |lines[0]| + 1)
  }

  function Markers(s: Bytes, marker: Bytes, base: int): seq<int> {
    MarkersOf(Lines(s), marker, base)
  }

  function StripCr(line: Bytes): Bytes {
    if line != [] && line[|line| - 1] == CR then line[..|line| - 1] else line
  }

  lemma {:induction false} StripMatches(line: Bytes, marker: Bytes)
    requires CR !in marker
    ensures StripCr(line) == marker <==> IsMarker(line, marker)
  {
  }

  /** From `start` to `end` there is no line feed, and the line ends at `end`. */
  predicate IsLine(s: Bytes, start: int, end: int) {
    0 <= start <= end <= |s| && (forall i :: start <= i < end ==> s[i] != LF) && (end < |s| ==> s[end] == LF)
  }

  /** The position of the first line feed at or behind `start`, or the length. */
  method NextLineFeed(s: Bytes, start: nat) returns (end: nat)
    requires start <= |s|
    ensures IsLine(s, start, end)
  {
    end := start;
    while end < |s| && s[end] != LF
      invariant start <= end <= |s| && forall i :: start <= i < end ==> s[i] != LF
    {
      end := end + 1;
    }
  }

  lemma {:induction false} FirstLine(s: Bytes, n: nat)
    requires IsLine(s, 0, n)
    ensures Lines(s)[0] == s[..n] && Lines(s)[1..] == if n == |s| then [] else Lines(s[n + 1..])
    decreases n
  {
    if n > 0 {
      assert s[0] == s[..n][0];
      assert s[1..][..n - 1] == s[..n][1..];
      assert forall i :: 0 <= i < n - 1 ==> s[1..][i] == s[i + 1];
      FirstLine(s[1..], n - 1);
      if n < |s| {
        assert s[1..][n..] == s[n + 1..];
      }
    }
  }

  lemma {:induction false} LinesFrom(s: Bytes, start: nat, end: nat)
    requires IsLine(s, start, end)
    ensures Lines(s[start..])[0] == s[start..end]
    ensures Lines(s[start..])[1..] == if end == |s| then [] else Lines(s[end + 1..])
  {
    var n, tail := end - start, s[start..];
    assert tail[..n] == s[start..end];
    assert forall i :: 0 <= i < n ==> tail[i] == s[start + i];
    FirstLine(tail, n);
    if n < |tail| {
      assert tail[n + 1..] == s[end + 1..];
    }
  }

  lemma {:induction false} SplitMarkers(lines: seq<Bytes>, line: Bytes, rest: seq<Bytes>, marker: Bytes, base: int)
    requires lines != [] && lines[0] == line && lines[1..] == rest
    ensures MarkersOf(lines, marker, base) == Here(line, marker, base) + MarkersOf(rest, marker, base + |line| + 1)
  {
  }

  /** The line from `start` to `end`, and the lines behind it. */
  lemma {:induction false} ScanLine(s: Bytes, marker: Bytes, start: nat, end: nat)
    requires IsLine(s, start, end)
    ensures Markers(s[start..], marker, start)
            == Here(s[start..end], marker, start) + (if end == |s| then [] else Markers(s[end + 1..], marker, end + 1))
  {
    LinesFrom(s, start, end);
    var rest := if end == |s| then [] else Lines(s[end + 1..]);
    SplitMarkers(Lines(s[start..]), s[start..end], rest, marker, start);
    assert start + |s[start..end]| + 1 == end + 1;
  }

  /** `at[i]` is where the marker lines of the text behind `i` are. */
  ghost predicate Scanned(s: Bytes, marker: Bytes, at: seq<seq<int>>) {
    && |at| == |s| + 1
    && (forall start, end :: IsLine(s, start, end) ==> AtLine(s, marker, at, start, end))
  }

  ghost predicate AtLine(s: Bytes, marker: Bytes, at: seq<seq<int>>, start: int, end: int)
    requires |at| == |s| + 1 && IsLine(s, start, end)
  {
    at[start] == Here(s[start..end], marker, start) + (if end == |s| then [] else at[end + 1])
  }

  lemma {:induction false} ScanText(s: Bytes, marker: Bytes) returns (at: seq<seq<int>>)
    ensures Scanned(s, marker, at) && at[0] == Markers(s, marker, 0)
  {
    at := seq(|s| + 1, i requires 0 <= i <= |s| => Markers(s[i..], marker, i));
    forall start, end | IsLine(s, start, end)
      ensures AtLine(s, marker, at, start, end)
    {
      ScanLine(s, marker, start, end);
      assert at[start] == Markers(s[start..], marker, start);
      if end < |s| {
        assert at[end + 1] == Markers(s[end + 1..], marker, end + 1);
      }
    }
    assert s[0..] == s;
  }

  method MarkerLines(content: Bytes, marker: Bytes) returns (out: seq<int>)
    requires CR !in marker
    ensures out == Markers(content, marker, 0)
  {
    ghost var at := ScanText(content, marker);
    out := MarkerLinesScanned(content, marker, at);
  }

  method LineIsMarker(line: Bytes, marker: Bytes) returns (found: bool)
    requires CR !in marker
    ensures found <==> IsMarker(line, marker)
  {
    StripMatches(line, marker);
    return StripCr(line) == marker;
  }

  method MarkerLinesScanned(content: Bytes, marker: Bytes, ghost at: seq<seq<int>>) returns (out: seq<int>)
    requires CR !in marker && Scanned(content, marker, at)
    ensures out == at[0]
  {
    out := [];
    var start, more := 0, true;
    while more
      invariant start <= |content|
      invariant at[0] == out + if more then at[start] else []
      decreases |content| - start, more
    {
      var end := NextLineFeed(content, start);
      var found := LineIsMarker(content[start..end], marker);
      assert AtLine(content, marker, at, start, end);
      out := out + if found then [start] else [];
      if end == |content| {
        more, start := false, end;
      } else {
        start := end + 1;
      }
    }
  }

  /** Empty, or ended by a line feed: whatever follows starts a new line. */
  predicate WholeLines(s: Bytes) {
    s == [] || s[|s| - 1] == LF
  }

  function Size(lines: seq<Bytes>): nat {
    if lines == [] then 0 else |lines[0]| + 1 + Size(lines[1..])
  }

  /** The lines of a text that consists of whole lines. */
  function LinesBefore(a: Bytes): (lines: seq<Bytes>)
    requires WholeLines(a)
    ensures lines == [] <==> a == []
  {
    if a == [] then []
    else if a[0] == LF then [[]] + LinesBefore(a[1..])
    else [[a[0]] + LinesBefore(a[1..])[0]] + LinesBefore(a[1..])[1..]
  }

  lemma {:induction false} LongerFirst(c: Byte, x: seq<Bytes>, y: seq<Bytes>)
    requires x != []
    ensures [[c] + (x + y)[0]] + (x + y)[1..] == ([[c] + x[0]] + x[1..]) + y
  {
    assert (x + y)[0] == x[0] && (x + y)[1..] == x[1..] + y;
  }

  lemma {:induction false} LinesConcat(a: Bytes, b: Bytes)
    requires WholeLines(a)
    ensures Lines(a + b) == LinesBefore(a) + Lines(b)
    ensures Size(LinesBefore(a)) == |a|
  {
    if a == [] {
      assert a + b == b;
    } else {
      var tail := a[1..];
      assert (a + b)[1..] == tail + b;
      LinesConcat(tail, b);
      if a[0] != LF {
        LongerFirst(a[0], LinesBefore(tail), Lines(b));
      } else {
        assert [[]] + (LinesBefore(tail) + Lines(b)) == ([[]] + LinesBefore(tail)) + Lines(b);
      }
    }
  }

  lemma {:induction false} MarkersOfConcat(x: seq<Bytes>, y: seq<Bytes>, marker: Bytes, base: int)
    ensures MarkersOf(x + y, marker, base) == MarkersOf(x, marker, base) + MarkersOf(y, marker, base + Size(x))
    decreases |x|
  {
    if x == [] {
      assert x + y == y;
    } else {
      var tail, next := x[1..], base + |x[0]| + 1;
      assert (x + y)[0] == x[0] && (x + y)[1..] == tail + y;
      MarkersOfConcat(tail, y, marker, next);
      SplitMarkers(x + y, x[0], tail + y, marker, base);
      SplitMarkers(x, x[0], tail, marker, base);
      assert next + Size(tail) == base + Size(x);
    }
  }

  lemma {:induction false} MarkersConcat(a: Bytes, b: Bytes, marker: Bytes, base: int)
    requires WholeLines(a) && marker != []
    ensures Markers(a + b, marker, base) == Markers(a, marker, base) + Markers(b, marker, base + |a|)
  {
    LinesConcat(a, b);
    LinesConcat(a, []);
    assert a + [] == a;
    MarkersSplit(LinesBefore(a), Lines(a), Lines(b), marker, base, |a|);
  }

  /** The same on the lines: `lines` are whole lines and the empty rest behind them. */
  lemma {:induction false} MarkersSplit(before: seq<Bytes>, lines: seq<Bytes>, more: seq<Bytes>, marker: Bytes, base: int, size: nat)
    requires marker != [] && lines == before + [[]] && Size(before) == size
    ensures MarkersOf(before + more, marker, base) == MarkersOf(lines, marker, base) + MarkersOf(more, marker, base + size)
  {
    MarkersOfConcat(before, more, marker, base);
    MarkersOfConcat(before, [[]], marker, base);
    NoMarkerInEmptyLine(marker, base + size);
    var first := MarkersOf(before, marker, base);
    assert first + [] == first;
  }

  lemma {:induction false} NoMarkerInEmptyLine(marker: Bytes, base: int)
    requires marker != []
    ensures MarkersOf([[]], marker, base) == []
  {
    assert !IsMarker([], marker);
  }

  lemma {:induction false} MarkersBase(lines: seq<Bytes>, marker: Bytes, base: int, other: int)
    ensures |MarkersOf(lines, marker, base)| == |MarkersOf(lines, marker, other)|
    decreases |lines|
  {
    if lines != [] {
      var tail, next, otherNext := lines[1..], base + |lines[0]| + 1, other + |lines[0]| + 1;
      MarkersBase(tail, marker, next, otherNext);
      assert |Here(lines[0], marker, base)| == |Here(lines[0], marker, other)|;
      assert |MarkersOf(lines, marker, base)| == |Here(lines[0], marker, base)| + |MarkersOf(tail, marker, next)|;
    }
  }

  function Join(lines: seq<Bytes>): Bytes
    requires lines != []
  {
    if |lines| == 1 then lines[0] else lines[0] + [LF] + Join(lines[1..])
  }

  lemma {:induction false} JoinLonger(c: Byte, lines: seq<Bytes>)
    requires lines != []
    ensures Join([[c] + lines[0]] + lines[1..]) == [c] + Join(lines)
  {
    var longer := [[c] + lines[0]] + lines[1..];
    if |lines| > 1 {
      assert longer[1..] == lines[1..];
    }
  }

  lemma {:induction false} JoinLines(s: Bytes)
    ensures Join(Lines(s)) == s
  {
    if s != [] {
      var tail := s[1..];
      JoinLines(tail);
      var rest := Lines(tail);
      if s[0] == LF {
        assert ([[]] + rest)[1..] == rest;
      } else {
        JoinLonger(s[0], rest);
      }
      assert s == [s[0]] + tail;
    }
  }

  /** A marker position is the start of a line that holds the marker and nothing else. */
  predicate MarkerAt(s: Bytes, marker: Bytes, p: nat) {
    && p + |marker| <= |s| && WholeLines(s[..p]) && s[p..p + |marker|] == marker
    && (var e := p + |marker|;
        e == |s| || s[e] == LF || (s[e] == CR && (e + 1 == |s| || s[e + 1] == LF)))
  }

  lemma {:induction false} MarkerFirst(lines: seq<Bytes>, marker: Bytes)
    requires lines != [] && IsMarker(lines[0], marker)
    ensures MarkerAt(Join(lines), marker, 0)
  {
    var s := Join(lines);
    assert s[..0] == [];
    assert s[..|lines[0]|] == lines[0];
    assert s[0..|marker|] == lines[0][..|marker|];
  }

  lemma {:induction false} MarkerLater(head: Bytes, tail: Bytes, marker: Bytes, p: nat)
    requires MarkerAt(tail, marker, p)
    ensures MarkerAt(head + [LF] + tail, marker, |head| + 1 + p)
  {
    var s, k := head + [LF] + tail, |head| + 1;
    assert s[k + p..k + p + |marker|] == tail[p..p + |marker|];
    assert s[..k + p] == head + [LF] + tail[..p];
    if p > 0 {
      assert tail[..p][p - 1] == s[..k + p][k + p - 1];
    }
  }

  lemma {:induction false} MarkersOfAre(lines: seq<Bytes>, marker: Bytes, base: int, i: nat)
    requires i < |MarkersOf(lines, marker, base)|
    ensures MarkersOf(lines, marker, base)[i] >= base && MarkerAt(Join(lines), marker, MarkersOf(lines, marker, base)[i] - base)
    decreases |lines|
  {
    var first := |Here(lines[0], marker, base)|;
    if i < first {
      MarkerFirst(lines, marker);
    } else {
      var tail, next := lines[1..], base + |lines[0]| + 1;
      SplitMarkers(lines, lines[0], tail, marker, base);
      MarkersOfAre(tail, marker, next, i - first);
      var p := MarkersOf(tail, marker, next)[i - first];
      assert MarkersOf(lines, marker, base)[i] == p;
      JoinedLater(lines, marker, p - next);
    }
  }

  lemma {:induction false} JoinedLater(lines: seq<Bytes>, marker: Bytes, p: nat)
    requires |lines| > 1 && MarkerAt(Join(lines[1..]), marker, p)
    ensures MarkerAt(Join(lines), marker, |lines[0]| + 1 + p)
  {
    MarkerLater(lines[0], Join(lines[1..]), marker, p);
  }

  lemma {:induction false} MarkersAre(s: Bytes, marker: Bytes, base: int, i: nat)
    requires i < |Markers(s, marker, base)|
    ensures Markers(s, marker, base)[i] >= base && MarkerAt(s, marker, Markers(s, marker, base)[i] - base)
  {
    MarkersOfAre(Lines(s), marker, base, i);
    JoinLines(s);
  }

  // ---------------------------------------------------------------- line endings

  predicate StartsWithCrlf(s: Bytes) {
    |s| >= 2 && s[0] == CR && s[1] == LF
  }

  /** Every CR LF pair replaced, from left to right. */
  function ReplaceCrlf(s: Bytes, by_: Bytes): Bytes {
    if s == [] then [] else if StartsWithCrlf(s) then by_ + ReplaceCrlf(s[2..], by_) else [s[0]] + ReplaceCrlf(s[1..], by_)
  }

  predicate HasCrlf(s: Bytes) {
    exists i :: 0 <= i < |s| - 1 && StartsWithCrlf(s[i..])
  }

  /** The file has CR LF line endings and no other line feed. */
  predicate AllCrlf(s: Bytes) {
    HasCrlf(s) && LF !in ReplaceCrlf(s, [])
  }

  function ToCrlf(s: Bytes): Bytes {
    if s == [] then [] else (if s[0] == LF then [CR, LF] else [s[0]]) + ToCrlf(s[1..])
  }

  function ToLf(s: Bytes): Bytes {
    ReplaceCrlf(s, [LF])
  }

  function LineEnding(block: Bytes, current: Bytes): Bytes {
    if AllCrlf(current) then ToCrlf(block) else block
  }

  /** A line feed without a carriage return before it. */
  predicate BareAt(s: Bytes, i: int) {
    0 <= i < |s| && s[i] == LF && (i == 0 || s[i - 1] != CR)
  }

  lemma {:induction false} ReplacedHasLf(s: Bytes)
    ensures LF in ReplaceCrlf(s, []) <==> exists i :: BareAt(s, i)
  {
    if s == [] {
    } else if StartsWithCrlf(s) {
      ReplacedHasLf(s[2..]);
      if i :| BareAt(s, i) {
        assert BareAt(s[2..], i - 2);
      }
      if i :| BareAt(s[2..], i) {
        assert BareAt(s, i + 2);
      }
    } else {
      ReplacedHasLf(s[1..]);
      if s[0] == LF {
        assert BareAt(s, 0);
      }
      if i :| BareAt(s, i) && i > 0 {
        assert BareAt(s[1..], i - 1);
      }
      if i :| BareAt(s[1..], i) {
        assert s[1..][i] == s[i + 1] && (i > 0 ==> s[1..][i - 1] == s[i]);
        assert BareAt(s, i + 1);
      }
    }
  }

  /** The two byte searches of the code amount to: there is a line feed, and none is bare. */
  lemma {:induction false} AllCrlfMeans(s: Bytes)
    ensures AllCrlf(s) <==> LF in s && forall i :: 0 <= i < |s| ==> !BareAt(s, i)
  {
    ReplacedHasLf(s);
    if HasCrlf(s) {
      var i :| 0 <= i < |s| - 1 && StartsWithCrlf(s[i..]);
      assert s[i + 1] == LF;
    }
    if LF in s && forall i :: 0 <= i < |s| ==> !BareAt(s, i) {
      var i :| 0 <= i < |s| && s[i] == LF;
      assert !BareAt(s, i);
      assert StartsWithCrlf(s[i - 1..]);
    }
  }

  // ---------------------------------------------------------------- operations

  /** The position behind the line ending at `e`. */
  function SkipLineEnd(s: Bytes, e: nat): (r: nat)
    requires e <= |s|
    ensures e <= r <= |s|
  {
    var a := if e < |s| && s[e] == CR then e + 1 else e;
    if a < |s| && s[a] == LF then a + 1 else a
  }

  /** Positions of markers as they are found in a text. */
  predicate InText(positions: seq<int>, marker: Bytes, s: Bytes) {
    forall i :: 0 <= i < |positions| ==> 0 <= positions[i] <= positions[i] + |marker| <= |s|
  }

  function MergeAt(m: Marks, begins: seq<int>, ends: seq<int>, current: Bytes, block: Bytes): Result
    requires InText(begins, m.begin, current) && InText(ends, m.end, current)
  {
    if |begins| != |ends| || |begins| > 1 then Refused
    else if |begins| == 1 then
      if ends[0] < begins[0] then Refused
      else Ok(current[..begins[0]] + LineEnding(block, current) + current[SkipLineEnd(current, ends[0] + |m.end|)..])
    else
      var out := if current != [] && current[|current| - 1] != LF then current + [LF] else current;
      Ok(out + LineEnding(block, current))
  }

  function ManagedAt(m: Marks, begins: seq<int>, ends: seq<int>, content: Bytes): Result
    requires InText(begins, m.begin, content) && InText(ends, m.end, content)
  {
    if |begins| != 1 || |ends| != 1 || ends[0] < begins[0] then Refused
    else Ok(content[begins[0]..ends[0] + |m.end|])
  }

  function RemoveAt(m: Marks, begins: seq<int>, ends: seq<int>, current: Bytes): Result
    requires InText(begins, m.begin, current) && InText(ends, m.end, current)
  {
    if |begins| != 1 || |ends| != 1 then Refused
    else Ok(current[..begins[0]] + current[SkipLineEnd(current, ends[0] + |m.end|)..])
  }

  lemma {:induction false} MarkersInText(s: Bytes, marker: Bytes)
    ensures InText(Markers(s, marker, 0), marker, s)
  {
    var positions := Markers(s, marker, 0);
    forall i | 0 <= i < |positions|
      ensures 0 <= positions[i] <= positions[i] + |marker| <= |s|
    {
      MarkersAre(s, marker, 0, i);
    }
  }

  /** Replaces the managed block, or appends it. */
  function Merge(m: Marks, current: Bytes, block: Bytes): Result {
    MarkersInText(current, m.begin);
    MarkersInText(current, m.end);
    MergeAt(m, Markers(current, m.begin, 0), Markers(current, m.end, 0), current, block)
  }

  /** The managed block, without its last line break. */
  function Managed(m: Marks, content: Bytes): Result {
    MarkersInText(content, m.begin);
    MarkersInText(content, m.end);
    ManagedAt(m, Markers(content, m.begin, 0), Markers(content, m.end, 0), content)
  }

  function Remove(m: Marks, current: Bytes): Result {
    MarkersInText(current, m.begin);
    MarkersInText(current, m.end);
    RemoveAt(m, Markers(current, m.begin, 0), Markers(current, m.end, 0), current)
  }

  // ---------------------------------------------------------------- what a scan promises

  predicate LineBreak(nl: Bytes) {
    nl == [LF] || nl == [CR, LF]
  }

  /** Anything that finds marker lines the way `Markers` does. The laws of the managed block need
      no more than this. */
  type Scan = (Bytes, Bytes, int) -> seq<int>

  ghost predicate ConcatFact(scan: Scan, a: Bytes, b: Bytes, marker: Bytes, base: int) {
    WholeLines(a) && marker != [] ==> scan(a + b, marker, base) == scan(a, marker, base) + scan(b, marker, base + |a|)
  }

  ghost predicate PositionFact(scan: Scan, s: Bytes, marker: Bytes, base: int, i: int) {
    0 <= i < |scan(s, marker, base)| ==>
      scan(s, marker, base)[i] >= base && MarkerAt(s, marker, scan(s, marker, base)[i] - base)
  }

  ghost predicate BaseFact(scan: Scan, s: Bytes, marker: Bytes, base: int, other: int) {
    scan(s, marker, base) == [] ==> scan(s, marker, other) == []
  }

  ghost predicate LineFact(scan: Scan, line: Bytes, nl: Bytes, marker: Bytes, base: int) {
    LF !in line && CR !in line && LineBreak(nl) && marker != [] && CR !in marker ==>
      scan(line + nl, marker, base) == if line == marker then [base] else []
  }

  ghost predicate EmptyFact(scan: Scan, marker: Bytes, base: int) {
    marker != [] ==> scan([], marker, base) == []
  }

  ghost predicate LastLineFact(scan: Scan, s: Bytes, marker: Bytes) {
    marker != [] && scan(s, marker, 0) == [] ==> scan(s + [LF], marker, 0) == []
  }

  /** Carriage returns before the line feeds make no marker line. */
  ghost predicate CrlfFact(scan: Scan, s: Bytes, marker: Bytes) {
    CR !in marker && scan(s, marker, 0) == [] ==> scan(ToCrlf(s), marker, 0) == []
  }

  /** Two carriage returns before every line feed hide all marker lines. */
  ghost predicate DoubleCrFact(scan: Scan, s: Bytes, marker: Bytes) {
    WholeLines(s) && CR !in marker && marker != [] ==> scan(ToCrlf(ToCrlf(s)), marker, 0) == []
  }

  ghost predicate ScanOk(scan: Scan) {
    && (forall a, b, marker, base :: ConcatFact(scan, a, b, marker, base))
    && (forall s, marker, base, i :: PositionFact(scan, s, marker, base, i))
    && (forall s, marker, base, other :: BaseFact(scan, s, marker, base, other))
    && (forall line, nl, marker, base :: LineFact(scan, line, nl, marker, base))
    && (forall marker, base :: EmptyFact(scan, marker, base))
    && (forall s, marker :: LastLineFact(scan, s, marker))
    && (forall s, marker :: CrlfFact(scan, s, marker))
    && (forall s, marker :: DoubleCrFact(scan, s, marker))
  }

  ghost function MarkerScan(): Scan {
    (s: Bytes, marker: Bytes, base: int) => Markers(s, marker, base)
  }

  lemma {:induction false} NoMarkerInNothing(marker: Bytes, base: int)
    requires marker != []
    ensures Markers([], marker, base) == []
  {
    var lines: seq<Bytes> := [[]];
    assert Lines([]) == lines && lines[1..] == [];
    SplitMarkers(lines, [], [], marker, base);
  }

  /** A single line with its line break. */
  lemma {:induction false} OneLine(line: Bytes, nl: Bytes, marker: Bytes, base: int)
    requires LF !in line && CR !in line && LineBreak(nl) && marker != [] && CR !in marker
    ensures Markers(line + nl, marker, base) == if line == marker then [base] else []
    ensures WholeLines(line + nl)
  {
    var s := line + nl;
    var n := |s| - 1;
    assert forall i :: 0 <= i < n ==> s[i] != LF;
    assert IsLine(s, 0, n);
    FirstLine(s, n);
    assert s[n + 1..] == [];
    SplitMarkers(Lines(s), s[..n], Lines([]), marker, base);
    NoMarkerInNothing(marker, base + n + 1);
    if nl == [CR, LF] {
      assert s[..n] == line + [CR];
      MarkerWithCr(line, marker);
    } else {
      assert s[..n] == line;
      MarkerPlain(line, marker);
    }
  }

  lemma {:induction false} MarkerWithCr(line: Bytes, marker: Bytes)
    requires CR !in line && CR !in marker
    ensures IsMarker(line + [CR], marker) <==> line == marker
  {
    var s := line + [CR];
    assert s[|line|] == CR && s[..|line|] == line;
    assert |s| == |marker| && marker <= s ==> marker == s;
    assert |s| == |marker| + 1 && marker <= s ==> marker == s[..|line|];
  }

  lemma {:induction false} MarkerPlain(line: Bytes, marker: Bytes)
    requires CR !in line
    ensures IsMarker(line, marker) <==> line == marker
  {
  }

  lemma {:induction false} LastLine(s: Bytes)
    ensures Lines(s + [LF]) == Lines(s) + [[]]
  {
    var all := s + [LF];
    if s == [] {
      assert all[0] == LF && all[1..] == [];
      assert Lines(all[1..]) == [[]];
    } else {
      var rest := Lines(s[1..]);
      assert all[0] == s[0] && all[1..] == s[1..] + [LF];
      LastLine(s[1..]);
      assert (rest + [[]])[0] == rest[0] && (rest + [[]])[1..] == rest[1..] + [[]];
    }
  }

  /** Adding the missing final line feed adds no marker line. */
  lemma {:induction false} WithLineEnd(s: Bytes, marker: Bytes)
    requires Markers(s, marker, 0) == [] && marker != []
    ensures Markers(s + [LF], marker, 0) == []
  {
    LastLine(s);
    MarkersOfConcat(Lines(s), [[]], marker, 0);
    NoMarkerInNothing(marker, Size(Lines(s)));
  }

  /** A carriage return at the end of every line but the last. */
  function AddCr(lines: seq<Bytes>): seq<Bytes>
    requires lines != []
  {
    if |lines| == 1 then lines else [lines[0] + [CR]] + AddCr(lines[1..])
  }

  lemma {:induction false} CrlfLines(s: Bytes)
    ensures Lines(ToCrlf(s)) == AddCr(Lines(s))
  {
    if s != [] {
      CrlfLines(s[1..]);
      var rest := Lines(s[1..]);
      var tail := ToCrlf(s[1..]);
      if s[0] == LF {
        assert ToCrlf(s) == [CR, LF] + tail && ToCrlf(s)[1..] == [LF] + tail && ([LF] + tail)[1..] == tail;
        var lines := Lines([LF] + tail);
        assert lines == [[]] + Lines(tail) && lines[0] == [] && lines[1..] == Lines(tail);
        assert [CR] + lines[0] == [CR];
        assert Lines(ToCrlf(s)) == [[CR] + lines[0]] + lines[1..];
        assert ([[]] + rest)[1..] == rest && [] + [CR] == [CR];
      } else {
        assert ToCrlf(s)[1..] == tail;
        AddCrHead(s[0], rest);
      }
    }
  }

  lemma {:induction false} AddCrHead(c: Byte, rest: seq<Bytes>)
    requires rest != []
    ensures AddCr([[c] + rest[0]] + rest[1..]) == [[c] + AddCr(rest)[0]] + AddCr(rest)[1..]
  {
    var lines := [[c] + rest[0]] + rest[1..];
    if |rest| > 1 {
      assert lines[1..] == rest[1..];
      assert [c] + rest[0] + [CR] == [c] + (rest[0] + [CR]);
    }
  }

  lemma {:induction false} MarkerBeforeCr(line: Bytes, marker: Bytes)
    requires CR !in marker && IsMarker(line + [CR], marker)
    ensures IsMarker(line, marker)
  {
    var s := line + [CR];
    assert s[|line|] == CR && s[..|line|] == line;
    assert |s| == |marker| ==> marker == s;
    assert |s| == |marker| + 1 ==> marker == s[..|line|];
  }

  lemma {:induction false} CrlfMarkers(lines: seq<Bytes>, marker: Bytes, base: int, other: int)
    requires lines != [] && CR !in marker && MarkersOf(lines, marker, base) == []
    ensures MarkersOf(AddCr(lines), marker, other) == []
    decreases |lines|
  {
    SplitMarkers(lines, lines[0], lines[1..], marker, base);
    if |lines| == 1 {
      SplitMarkers(lines, lines[0], lines[1..], marker, other);
    } else {
      if IsMarker(lines[0] + [CR], marker) {
        MarkerBeforeCr(lines[0], marker);
      }
      CrlfMarkers(lines[1..], marker, base + |lines[0]| + 1, other + |lines[0]| + 2);
      SplitMarkers(AddCr(lines), lines[0] + [CR], AddCr(lines[1..]), marker, other);
    }
  }

  lemma {:induction false} DoubleCrMarkers(lines: seq<Bytes>, marker: Bytes, base: int)
    requires lines != [] && lines[|lines| - 1] == [] && CR !in marker && marker != []
    ensures MarkersOf(AddCr(AddCr(lines)), marker, base) == []
    decreases |lines|
  {
    var once := AddCr(lines);
    var twice := AddCr(once);
    if |lines| == 1 {
      NoMarkerInNothing(marker, base);
      SplitMarkers(lines, [], [], marker, base);
    } else {
      assert once[0] == lines[0] + [CR] && once[1..] == AddCr(lines[1..]);
      assert twice[0] == once[0] + [CR] && twice[1..] == AddCr(once[1..]);
      TwoCr(lines[0], marker);
      assert lines[1..][|lines[1..]| - 1] == [];
      DoubleCrMarkers(lines[1..], marker, base + |twice[0]| + 1);
      SplitMarkers(twice, twice[0], twice[1..], marker, base);
    }
  }

  lemma {:induction false} TwoCr(line: Bytes, marker: Bytes)
    requires CR !in marker
    ensures !IsMarker(line + [CR] + [CR], marker)
  {
    var s := line + [CR] + [CR];
    assert s[|line|] == CR && s[|line| + 1] == CR;
    assert forall i :: 0 <= i < |marker| ==> marker[i] != CR;
  }

  lemma {:induction false} WholeLastLine(s: Bytes)
    requires WholeLines(s)
    ensures Lines(s)[|Lines(s)| - 1] == []
  {
    if s != [] {
      WholeLastLine(s[1..]);
      if |s| > 1 {
        assert s[1..][|s[1..]| - 1] == LF;
      }
    }
  }

  lemma {:induction false} MarkerScanOk()
    ensures ScanOk(MarkerScan())
  {
    var scan := MarkerScan();
    forall a: Bytes, b: Bytes, marker: Bytes, base: int
      ensures ConcatFact(scan, a, b, marker, base)
    {
      if WholeLines(a) && marker != [] {
        MarkersConcat(a, b, marker, base);
      }
    }
    forall s: Bytes, marker: Bytes, base: int, i: int
      ensures PositionFact(scan, s, marker, base, i)
    {
      if 0 <= i < |Markers(s, marker, base)| {
        MarkersAre(s, marker, base, i);
      }
    }
    forall s: Bytes, marker: Bytes, base: int, other: int
      ensures BaseFact(scan, s, marker, base, other)
    {
      MarkersBase(Lines(s), marker, base, other);
    }
    MarkerScanLines();
  }

  lemma {:induction false} MarkerScanLines()
    ensures var scan := MarkerScan();
            && (forall line, nl, marker, base :: LineFact(scan, line, nl, marker, base))
            && (forall marker, base :: EmptyFact(scan, marker, base))
            && (forall s, marker :: LastLineFact(scan, s, marker))
            && (forall s, marker :: CrlfFact(scan, s, marker))
            && (forall s, marker :: DoubleCrFact(scan, s, marker))
  {
    var scan := MarkerScan();
    forall line: Bytes, nl: Bytes, marker: Bytes, base: int
      ensures LineFact(scan, line, nl, marker, base)
    {
      if LF !in line && CR !in line && LineBreak(nl) && marker != [] && CR !in marker {
        OneLine(line, nl, marker, base);
      }
    }
    forall marker: Bytes, base: int
      ensures EmptyFact(scan, marker, base)
    {
      if marker != [] {
        NoMarkerInNothing(marker, base);
      }
    }
    forall s: Bytes, marker: Bytes
      ensures LastLineFact(scan, s, marker)
    {
      if marker != [] && Markers(s, marker, 0) == [] {
        WithLineEnd(s, marker);
      }
    }
    forall s: Bytes, marker: Bytes
      ensures CrlfFact(scan, s, marker)
    {
      if CR !in marker && Markers(s, marker, 0) == [] {
        CrlfLines(s);
        CrlfMarkers(Lines(s), marker, 0, 0);
      }
    }
    forall s: Bytes, marker: Bytes
      ensures DoubleCrFact(scan, s, marker)
    {
      if WholeLines(s) && CR !in marker && marker != [] {
        CrlfLines(s);
        CrlfLines(ToCrlf(s));
        WholeLastLine(s);
        DoubleCrMarkers(Lines(s), marker, 0);
      }
    }
  }
}
