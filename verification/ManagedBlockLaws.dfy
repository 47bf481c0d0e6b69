/** What merging, extracting and removing the managed block promise each other, for any scan that
    finds marker lines as the installer's does. */
module ManagedBlockLaws {
  import opened FileBytes
  import opened ManagedBlock

  /** No line of the text is one of the two marker lines. */
  ghost predicate Clean(scan: Scan, m: Marks, s: Bytes) {
    scan(s, m.begin, 0) == [] && scan(s, m.end, 0) == []
  }

  function BlockText(m: Marks, first: Bytes, body: Bytes): Bytes {
    m.begin + first + body + m.end
  }

  /** A block: marker lines with their line breaks around whole lines without a marker line. */
  ghost predicate BlockOk(scan: Scan, m: Marks, first: Bytes, body: Bytes, last: Bytes) {
    LineBreak(first) && LineBreak(last) && WholeLines(body) && Clean(scan, m, body)
  }

  // ---------------------------------------------------------------- positions in a text with a block

  lemma {:induction false} Concat(scan: Scan, a: Bytes, b: Bytes, marker: Bytes, base: int)
    requires ScanOk(scan) && WholeLines(a) && marker != []
    ensures scan(a + b, marker, base) == scan(a, marker, base) + scan(b, marker, base + |a|)
  {
    assert ConcatFact(scan, a, b, marker, base);
  }

  lemma {:induction false} ThreePieces(scan: Scan, a: Bytes, b: Bytes, c: Bytes, marker: Bytes, base: int)
    requires ScanOk(scan) && WholeLines(a) && WholeLines(b) && marker != []
    ensures scan(a + b + c, marker, base)
            == scan(a, marker, base) + scan(b, marker, base + |a|) + scan(c, marker, base + |a| + |b|)
  {
    WholeConcat(a, b);
    Concat(scan, a + b, c, marker, base);
    Concat(scan, a, b, marker, base);
  }

  lemma {:induction false} WholeConcat(a: Bytes, b: Bytes)
    requires WholeLines(a) && WholeLines(b)
    ensures WholeLines(a + b)
  {
    if b == [] {
      assert a + b == a;
    }
  }

  lemma {:induction false} MarkLine(scan: Scan, line: Bytes, nl: Bytes, marker: Bytes, base: int)
    requires ScanOk(scan) && LF !in line && CR !in line && LineBreak(nl) && marker != [] && CR !in marker
    ensures scan(line + nl, marker, base) == (if line == marker then [base] else []) && WholeLines(line + nl)
  {
    assert LineFact(scan, line, nl, marker, base);
  }

  lemma {:induction false} Anywhere(scan: Scan, s: Bytes, marker: Bytes, base: int)
    requires ScanOk(scan) && scan(s, marker, 0) == []
    ensures scan(s, marker, base) == []
  {
    assert BaseFact(scan, s, marker, 0, base);
  }

  /** The marker lines of a block are its first and its last line. */
  lemma {:induction false} BlockMarkers(scan: Scan, m: Marks, marker: Bytes, first: Bytes, body: Bytes, last: Bytes, base: int)
    requires ScanOk(scan) && MarksOk(m) && BlockOk(scan, m, first, body, last) && (marker == m.begin || marker == m.end)
    ensures scan((m.begin + first) + body + (m.end + last), marker, base)
            == [if marker == m.begin then base else base + |m.begin| + |first| + |body|]
  {
    var a, c := m.begin + first, m.end + last;
    MarkLine(scan, m.begin, first, marker, base);
    MarkLine(scan, m.end, last, marker, base + |a| + |body|);
    Anywhere(scan, body, marker, base + |a|);
    ThreePieces(scan, a, body, c, marker, base);
  }

  /** A text that consists of user lines, a block, and user text. */
  function Text(m: Marks, before: Bytes, first: Bytes, body: Bytes, last: Bytes, after: Bytes): Bytes {
    before + ((m.begin + first) + body + (m.end + last)) + after
  }

  ghost predicate TextOk(scan: Scan, m: Marks, before: Bytes, first: Bytes, body: Bytes, last: Bytes, after: Bytes) {
    WholeLines(before) && Clean(scan, m, before) && Clean(scan, m, after) && BlockOk(scan, m, first, body, last)
  }

  lemma {:induction false} TextMarkers(scan: Scan, m: Marks, marker: Bytes, before: Bytes, first: Bytes, body: Bytes, last: Bytes,
                                       after: Bytes)
    requires ScanOk(scan) && MarksOk(m) && TextOk(scan, m, before, first, body, last, after)
    requires marker == m.begin || marker == m.end
    ensures scan(Text(m, before, first, body, last, after), marker, 0)
            == [if marker == m.begin then |before| else |before| + |m.begin| + |first| + |body|]
  {
    var block := (m.begin + first) + body + (m.end + last);
    assert block[|block| - 1] == last[|last| - 1];
    BlockMarkers(scan, m, marker, first, body, last, |before|);
    Anywhere(scan, after, marker, |before| + |block|);
    ThreePieces(scan, before, block, after, marker, 0);
  }

  lemma {:induction false} TextSlices(m: Marks, before: Bytes, first: Bytes, body: Bytes, last: Bytes, after: Bytes)
    requires LineBreak(last)
    ensures var s := Text(m, before, first, body, last, after);
            var b, e := |before|, |before| + |m.begin| + |first| + |body| + |m.end|;
            && e + |last| <= |s| && s[..b] == before && s[b..e] == BlockText(m, first, body)
            && SkipLineEnd(s, e) == e + |last| && s[e + |last|..] == after
  {
    var s := Text(m, before, first, body, last, after);
    var e := |before| + |m.begin| + |first| + |body| + |m.end|;
    var head := before + BlockText(m, first, body);
    assert s == head + last + after;
    assert |head| == e;
    assert s[e] == last[0];
    if |last| == 2 {
      assert s[e + 1] == last[1];
    }
  }

  ghost function ScanMerge(scan: Scan, m: Marks, current: Bytes, block: Bytes): Result
    requires ScanOk(scan)
  {
    ScanInText(scan, current, m.begin);
    ScanInText(scan, current, m.end);
    MergeAt(m, scan(current, m.begin, 0), scan(current, m.end, 0), current, block)
  }

  ghost function ScanManaged(scan: Scan, m: Marks, content: Bytes): Result
    requires ScanOk(scan)
  {
    ScanInText(scan, content, m.begin);
    ScanInText(scan, content, m.end);
    ManagedAt(m, scan(content, m.begin, 0), scan(content, m.end, 0), content)
  }

  ghost function ScanRemove(scan: Scan, m: Marks, current: Bytes): Result
    requires ScanOk(scan)
  {
    ScanInText(scan, current, m.begin);
    ScanInText(scan, current, m.end);
    RemoveAt(m, scan(current, m.begin, 0), scan(current, m.end, 0), current)
  }

  lemma {:induction false} ScanInText(scan: Scan, s: Bytes, marker: Bytes)
    requires ScanOk(scan)
    ensures InText(scan(s, marker, 0), marker, s)
  {
    forall i | 0 <= i < |scan(s, marker, 0)|
      ensures 0 <= scan(s, marker, 0)[i] <= scan(s, marker, 0)[i] + |marker| <= |s|
    {
      assert PositionFact(scan, s, marker, 0, i);
    }
  }

  /** Extracting, removing and replacing the block of a text. */
  lemma {:induction false} TextOps(scan: Scan, m: Marks, before: Bytes, first: Bytes, body: Bytes, last: Bytes, after: Bytes, next: Bytes)
    requires ScanOk(scan) && MarksOk(m) && TextOk(scan, m, before, first, body, last, after)
    ensures var s := Text(m, before, first, body, last, after);
            && ScanManaged(scan, m, s) == Ok(BlockText(m, first, body))
            && ScanRemove(scan, m, s) == Ok(before + after)
            && ScanMerge(scan, m, s, next) == Ok(before + LineEnding(next, s) + after)
  {
    TextMarkers(scan, m, m.begin, before, first, body, last, after);
    TextMarkers(scan, m, m.end, before, first, body, last, after);
    TextSlices(m, before, first, body, last, after);
  }

  // ---------------------------------------------------------------- where a block goes

  /** Behind the text, or in the place of the block from `begin` to `end`. */
  datatype Place = Behind | Between(begin: nat, end: nat)

  predicate PlaceOk(p: Place, current: Bytes) {
    p.Between? ==> p.begin <= p.end <= |current|
  }

  /** The user's text before the block. */
  function Before(current: Bytes, p: Place): Bytes
    requires PlaceOk(p, current)
  {
    match p
    case Behind => if WholeLines(current) then current else current + [LF]
    case Between(b, _) => current[..b]
  }

  /** The user's text after the block. */
  function After(current: Bytes, p: Place): Bytes
    requires PlaceOk(p, current)
  {
    match p case Behind => [] case Between(_, e) => current[e..]
  }

  ghost predicate Surrounds(scan: Scan, m: Marks, current: Bytes, p: Place)
    requires PlaceOk(p, current)
  {
    && WholeLines(Before(current, p)) && Clean(scan, m, Before(current, p)) && Clean(scan, m, After(current, p))
    && (p == Behind <==> scan(current, m.begin, 0) == [])
  }

  predicate EndOfMark(current: Bytes, q: int, e: nat) {
    0 < q <= |current| && current[q - 1] != CR && e == SkipLineEnd(current, q)
  }

  /** The place of a block ends behind the line break of its last line. */
  ghost predicate EndsBehindMark(current: Bytes, p: Place) {
    p.Between? ==> exists q :: EndOfMark(current, q, p.end)
  }

  lemma {:induction false} HeadAndTail(x: seq<int>, y: seq<int>)
    ensures x != [] ==> (x + y)[0] == x[0]
    ensures y != [] ==> (x + y)[|x|] == y[0]
  {
  }

  lemma {:induction false} Split(scan: Scan, s: Bytes, marker: Bytes, b: nat)
    requires ScanOk(scan) && marker != [] && b <= |s| && WholeLines(s[..b])
    ensures scan(s, marker, 0) == scan(s[..b], marker, 0) + scan(s[b..], marker, b)
  {
    Concat(scan, s[..b], s[b..], marker, 0);
    assert s[..b] + s[b..] == s;
  }

  lemma {:induction false} PrefixClean(scan: Scan, s: Bytes, marker: Bytes, b: nat)
    requires ScanOk(scan) && marker != [] && b <= |s| && WholeLines(s[..b])
    requires forall i :: 0 <= i < |scan(s, marker, 0)| ==> scan(s, marker, 0)[i] >= b
    ensures scan(s[..b], marker, 0) == []
  {
    Split(scan, s, marker, b);
    HeadAndTail(scan(s[..b], marker, 0), scan(s[b..], marker, b));
    assert PositionFact(scan, s[..b], marker, 0, 0);
  }

  lemma {:induction false} SuffixClean(scan: Scan, s: Bytes, marker: Bytes, e: nat)
    requires ScanOk(scan) && marker != [] && e <= |s| && (WholeLines(s[..e]) || e == |s|)
    requires forall i :: 0 <= i < |scan(s, marker, 0)| ==> scan(s, marker, 0)[i] < e
    ensures scan(s[e..], marker, 0) == []
  {
    if e == |s| {
      assert EmptyFact(scan, marker, 0);
      assert s[e..] == [];
    } else {
      Split(scan, s, marker, e);
      HeadAndTail(scan(s[..e], marker, 0), scan(s[e..], marker, e));
      assert PositionFact(scan, s[e..], marker, e, 0);
      assert BaseFact(scan, s[e..], marker, e, 0);
    }
  }

  /** The text behind a marker line starts a new line, or is empty. */
  lemma {:induction false} BehindMarker(s: Bytes, marker: Bytes, p: nat)
    requires MarkerAt(s, marker, p)
    ensures var e := SkipLineEnd(s, p + |marker|);
            (e == |s| || WholeLines(s[..e])) && p + |marker| <= e
  {
    var e := SkipLineEnd(s, p + |marker|);
    if e < |s| {
      assert s[..e][e - 1] == s[e - 1];
    }
  }

  /** Every text that can be merged into splits into what stays before and after the block. */
  lemma {:induction false} Surroundings(scan: Scan, m: Marks, current: Bytes, block: Bytes) returns (p: Place)
    requires ScanOk(scan) && MarksOk(m) && ScanMerge(scan, m, current, block).Ok?
    ensures EndsBehindMark(current, p)
    ensures PlaceOk(p, current) && Surrounds(scan, m, current, p)
    ensures ScanMerge(scan, m, current, block) == Ok(Before(current, p) + LineEnding(block, current) + After(current, p))
    ensures p.Between? ==> ScanRemove(scan, m, current) == Ok(Before(current, p) + After(current, p))
  {
    ScanInText(scan, current, m.begin);
    ScanInText(scan, current, m.end);
    if scan(current, m.begin, 0) == [] {
      p := Behind;
      AppendedSurrounds(scan, m, current);
      NothingBehind(Before(current, p) + LineEnding(block, current));
    } else {
      p := ReplacedSurrounds(scan, m, current);
    }
  }

  lemma {:induction false} NothingBehind(s: Bytes)
    ensures s + [] == s
  {
  }

  lemma {:induction false} AppendedSurrounds(scan: Scan, m: Marks, current: Bytes)
    requires ScanOk(scan) && MarksOk(m) && Clean(scan, m, current)
    ensures Surrounds(scan, m, current, Behind)
  {
    assert EmptyFact(scan, m.begin, 0) && EmptyFact(scan, m.end, 0);
    assert LastLineFact(scan, current, m.begin) && LastLineFact(scan, current, m.end);
  }

  lemma {:induction false} ReplacedSurrounds(scan: Scan, m: Marks, current: Bytes) returns (p: Place)
    requires ScanOk(scan) && MarksOk(m) && |scan(current, m.begin, 0)| == 1 && |scan(current, m.end, 0)| == 1
    requires scan(current, m.begin, 0)[0] <= scan(current, m.end, 0)[0]
    ensures 0 <= scan(current, m.end, 0)[0] + |m.end| <= |current| && scan(current, m.begin, 0)[0] >= 0
    ensures p == Between(scan(current, m.begin, 0)[0], SkipLineEnd(current, scan(current, m.end, 0)[0] + |m.end|))
    ensures PlaceOk(p, current) && Surrounds(scan, m, current, p) && EndsBehindMark(current, p)
  {
    assert PositionFact(scan, current, m.begin, 0, 0) && PositionFact(scan, current, m.end, 0, 0);
    var b, q := scan(current, m.begin, 0)[0], scan(current, m.end, 0)[0];
    var e := SkipLineEnd(current, q + |m.end|);
    BehindMarker(current, m.end, q);
    p := Between(b, e);
    PrefixClean(scan, current, m.begin, b);
    PrefixClean(scan, current, m.end, b);
    SuffixClean(scan, current, m.begin, e);
    SuffixClean(scan, current, m.end, e);
    assert current[q + |m.end| - 1] == m.end[|m.end| - 1];
    assert EndOfMark(current, q + |m.end|, e);
  }

  // ---------------------------------------------------------------- line endings

  lemma {:induction false} CrlfConcat(a: Bytes, b: Bytes)
    ensures ToCrlf(a + b) == ToCrlf(a) + ToCrlf(b)
  {
    if a == [] {
      assert a + b == b;
    } else {
      assert (a + b)[0] == a[0] && (a + b)[1..] == a[1..] + b;
      CrlfConcat(a[1..], b);
      var head := if a[0] == LF then [CR, LF] else [a[0]];
      assert head + ToCrlf(a[1..]) + ToCrlf(b) == head + (ToCrlf(a[1..]) + ToCrlf(b));
    }
  }

  lemma {:induction false} CrlfPlain(a: Bytes)
    requires LF !in a
    ensures ToCrlf(a) == a
  {
    if a != [] {
      CrlfPlain(a[1..]);
      assert [a[0]] + a[1..] == a;
    }
  }

  lemma {:induction false} CrlfWhole(a: Bytes)
    requires WholeLines(a)
    ensures WholeLines(ToCrlf(a))
  {
    if a != [] {
      assert a == a[..|a| - 1] + [LF];
      CrlfConcat(a[..|a| - 1], [LF]);
      assert ToCrlf([LF]) == [CR, LF] by { assert [LF][1..] == []; }
    }
  }

  lemma {:induction false} CrlfBlock(m: Marks, body: Bytes)
    requires MarksOk(m)
    ensures ToCrlf(BlockText(m, [LF], body)) == BlockText(m, [CR, LF], ToCrlf(body))
    ensures ToCrlf(BlockText(m, [LF], body) + [LF]) == BlockText(m, [CR, LF], ToCrlf(body)) + [CR, LF]
  {
    assert ToCrlf([LF]) == [CR, LF] by { assert [LF][1..] == []; }
    CrlfPlain(m.begin);
    CrlfPlain(m.end);
    CrlfConcat(m.begin, [LF]);
    CrlfConcat(m.begin + [LF], body);
    CrlfConcat(m.begin + [LF] + body, m.end);
    CrlfConcat(BlockText(m, [LF], body), [LF]);
  }

  lemma {:induction false} BackToLf(s: Bytes)
    ensures ToLf(ToCrlf(s)) == s
    ensures ToCrlf(s) == [] || ToCrlf(s)[0] != LF
  {
    if s != [] {
      BackToLf(s[1..]);
      var tail := ToCrlf(s[1..]);
      if s[0] == LF {
        assert ([CR, LF] + tail)[2..] == tail;
      } else {
        assert ([s[0]] + tail)[1..] == tail;
      }
      assert [s[0]] + s[1..] == s;
    }
  }

  lemma {:induction false} AlreadyLf(s: Bytes)
    requires CR !in s
    ensures ToLf(s) == s
  {
    if s != [] {
      AlreadyLf(s[1..]);
      assert [s[0]] + s[1..] == s;
    }
  }

  /** The line break and the body of a block in a file. */
  function Break(current: Bytes): Bytes {
    if AllCrlf(current) then [CR, LF] else [LF]
  }

  function Body(current: Bytes, body: Bytes): Bytes {
    if AllCrlf(current) then ToCrlf(body) else body
  }

  /** A block with line feeds only, as the installer renders it. */
  ghost predicate Rendered(scan: Scan, m: Marks, body: Bytes) {
    BlockOk(scan, m, [LF], body, [LF]) && CR !in body
  }

  function Block(m: Marks, body: Bytes): Bytes {
    BlockText(m, [LF], body) + [LF]
  }

  lemma {:induction false} BlockInFile(scan: Scan, m: Marks, body: Bytes, current: Bytes)
    requires ScanOk(scan) && MarksOk(m) && Rendered(scan, m, body)
    ensures LineEnding(Block(m, body), current) == BlockText(m, Break(current), Body(current, body)) + Break(current)
    ensures BlockOk(scan, m, Break(current), Body(current, body), Break(current))
    ensures ToLf(BlockText(m, Break(current), Body(current, body))) == BlockText(m, [LF], body)
  {
    CrlfBlock(m, body);
    CrlfWhole(body);
    assert CrlfFact(scan, body, m.begin) && CrlfFact(scan, body, m.end);
    PlainBlock(m, body);
    BackToLf(BlockText(m, [LF], body));
    AlreadyLf(BlockText(m, [LF], body));
  }

  lemma {:induction false} PlainBlock(m: Marks, body: Bytes)
    requires MarksOk(m) && CR !in body
    ensures CR !in BlockText(m, [LF], body)
  {
  }

  lemma {:induction false} AsText(m: Marks, before: Bytes, first: Bytes, body: Bytes, last: Bytes, after: Bytes)
    ensures before + (BlockText(m, first, body) + last) + after == Text(m, before, first, body, last, after)
  {
    assert BlockText(m, first, body) + last == (m.begin + first) + body + (m.end + last);
  }

  // ---------------------------------------------------------------- the laws

  /** Merging puts the block in its place and leaves every other byte alone; what is extracted
      afterwards is the block up to line endings, and removing it leaves the bytes around it. */
  lemma {:induction false} MergeLaws(scan: Scan, m: Marks, body: Bytes, current: Bytes) returns (p: Place)
    requires ScanOk(scan) && MarksOk(m) && Rendered(scan, m, body) && ScanMerge(scan, m, current, Block(m, body)).Ok?
    ensures PlaceOk(p, current) && Surrounds(scan, m, current, p) && EndsBehindMark(current, p)
    ensures var out := ScanMerge(scan, m, current, Block(m, body)).bytes;
            && out == Text(m, Before(current, p), Break(current), Body(current, body), Break(current), After(current, p))
            && ScanManaged(scan, m, out) == Ok(BlockText(m, Break(current), Body(current, body)))
            && ToLf(ScanManaged(scan, m, out).bytes) == BlockText(m, [LF], body)
            && ScanRemove(scan, m, out) == Ok(Before(current, p) + After(current, p))
            && (p.Between? ==> ScanRemove(scan, m, out) == ScanRemove(scan, m, current))
            && (p == Behind ==> ScanRemove(scan, m, out) == Ok(if WholeLines(current) then current else current + [LF]))
  {
    p := Surroundings(scan, m, current, Block(m, body));
    BlockInFile(scan, m, body, current);
    var before, after, first, inner := Before(current, p), After(current, p), Break(current), Body(current, body);
    AsText(m, before, first, inner, first, after);
    TextOps(scan, m, before, first, inner, first, after, []);
    NothingBehind(before);
  }

  /** No line feed of the text is bare. */
  ghost predicate NoBare(s: Bytes) {
    forall i :: 0 <= i < |s| ==> !BareAt(s, i)
  }

  lemma {:induction false} NoBareConcat(a: Bytes, b: Bytes)
    ensures NoBare(a + b) ==> NoBare(a)
    ensures NoBare(a) && NoBare(b) ==> NoBare(a + b)
    ensures NoBare(a + b) && (a == [] || a[|a| - 1] != CR) ==> NoBare(b)
  {
    var s := a + b;
    forall i | 0 <= i < |a|
      ensures BareAt(s, i) <==> BareAt(a, i)
    {
    }
    forall i | 0 <= i < |b|
      ensures BareAt(s, |a| + i) ==> BareAt(b, i)
      ensures (a == [] || a[|a| - 1] != CR) && BareAt(b, i) ==> BareAt(s, |a| + i)
    {
    }
    if NoBare(a) && NoBare(b) {
      forall i | 0 <= i < |s|
        ensures !BareAt(s, i)
      {
        if i >= |a| {
          assert !BareAt(b, i - |a|);
        }
      }
    }
  }

  lemma {:induction false} NoBareCrlf(s: Bytes)
    requires CR !in s
    ensures NoBare(ToCrlf(s))
  {
    if s != [] {
      NoBareCrlf(s[1..]);
      var head := if s[0] == LF then [CR, LF] else [s[0]];
      NoBareConcat(head, ToCrlf(s[1..]));
    }
  }

  /** The only files in which merging twice differs from merging once. */
  predicate LosesLineEnding(current: Bytes, p: Place) {
    AllCrlf(current) && p == Behind && !WholeLines(current) && current[|current| - 1] != CR
  }

  lemma {:induction false} BeforeNoBare(current: Bytes, p: Place)
    requires PlaceOk(p, current) && AllCrlf(current)
    ensures NoBare(Before(current, p)) <==> !LosesLineEnding(current, p)
  {
    AllCrlfMeans(current);
    match p {
      case Between(b, _) =>
        NoBareConcat(current[..b], current[b..]);
        assert current[..b] + current[b..] == current;
      case Behind =>
        if !WholeLines(current) {
          var s := current + [LF];
          assert BareAt(s, |current|) <==> current[|current| - 1] != CR;
          forall i | 0 <= i < |current|
            ensures !BareAt(s, i)
          {
            assert !BareAt(current, i);
          }
        }
    }
  }

  lemma {:induction false} AfterNoBare(current: Bytes, p: Place)
    requires PlaceOk(p, current) && AllCrlf(current) && EndsBehindMark(current, p)
    ensures NoBare(After(current, p))
  {
    AllCrlfMeans(current);
    if p.Between? {
      var e := p.end;
      var q :| EndOfMark(current, q, e);
      forall i | 0 <= i < |current[e..]|
        ensures !BareAt(current[e..], i)
      {
        assert !BareAt(current, e + i);
      }
    }
  }

  /** What the block does to the file's line endings. */
  lemma {:induction false} MergedLineEnding(scan: Scan, m: Marks, body: Bytes, current: Bytes, p: Place)
    requires ScanOk(scan) && MarksOk(m) && Rendered(scan, m, body) && PlaceOk(p, current)
    requires EndsBehindMark(current, p)
    ensures var out := Text(m, Before(current, p), Break(current), Body(current, body), Break(current), After(current, p));
            AllCrlf(out) <==> AllCrlf(current) && !LosesLineEnding(current, p)
  {
    var before, after, first, inner := Before(current, p), After(current, p), Break(current), Body(current, body);
    var block := (m.begin + first) + inner + (m.end + first);
    var out := before + block + after;
    AllCrlfMeans(out);
    assert block[|m.begin| + |first| - 1] == LF;
    assert out[|before| + |m.begin| + |first| - 1] == LF;
    if AllCrlf(current) {
      BlockInFile(scan, m, body, current);
      CrlfBlock(m, body);
      PlainBlock(m, body);
      NoBareCrlf(BlockText(m, [LF], body) + [LF]);
      assert block == ToCrlf(BlockText(m, [LF], body) + [LF]) by { AsText(m, [], first, inner, first, []); }
      BeforeNoBare(current, p);
      AfterNoBare(current, p);
      NoBareConcat(before, block);
      NoBareConcat(before + block, after);
    } else {
      BareBlock(m, before, inner, after);
    }
  }

  lemma {:induction false} BareBlock(m: Marks, before: Bytes, body: Bytes, after: Bytes)
    requires MarksOk(m)
    ensures !AllCrlf(before + ((m.begin + [LF]) + body + (m.end + [LF])) + after)
  {
    var out := before + ((m.begin + [LF]) + body + (m.end + [LF])) + after;
    var i := |before| + |m.begin|;
    AllCrlfMeans(out);
    assert out[i] == LF && out[i - 1] == m.begin[|m.begin| - 1];
    assert BareAt(out, i);
  }

  lemma {:induction false} CrlfLonger(s: Bytes)
    ensures |ToCrlf(s)| >= |s| && (LF in s ==> |ToCrlf(s)| > |s|)
  {
    if s != [] {
      CrlfLonger(s[1..]);
    }
  }

  lemma {:induction false} SameMiddle(before: Bytes, x: Bytes, y: Bytes, after: Bytes)
    requires before + x + after == before + y + after
    ensures |x| == |y|
  {
    assert |before + x + after| == |before + y + after|;
  }

  /** Merging twice is merging once, except in a file with CR LF line endings whose last line has
      none: there the first merge adds a bare line feed, and the second one takes the file for an LF
      file. */
  lemma {:induction false} MergeIsIdempotent(scan: Scan, m: Marks, body: Bytes, current: Bytes) returns (p: Place)
    requires ScanOk(scan) && MarksOk(m) && Rendered(scan, m, body) && ScanMerge(scan, m, current, Block(m, body)).Ok?
    ensures PlaceOk(p, current) && Surrounds(scan, m, current, p)
    ensures var out := ScanMerge(scan, m, current, Block(m, body)).bytes;
            ScanMerge(scan, m, out, Block(m, body)) == Ok(out) <==> !LosesLineEnding(current, p)
  {
    p := MergeLaws(scan, m, body, current);
    var before, after, first, inner := Before(current, p), After(current, p), Break(current), Body(current, body);
    var out := Text(m, before, first, inner, first, after);
    BlockInFile(scan, m, body, current);
    TextOps(scan, m, before, first, inner, first, after, Block(m, body));
    MergedLineEnding(scan, m, body, current, p);
    AsText(m, before, first, inner, first, after);
    CrlfLonger(Block(m, body));
    assert Block(m, body)[|m.begin|] == LF;
    if LosesLineEnding(current, p) && before + LineEnding(Block(m, body), out) + after == out {
      SameMiddle(before, LineEnding(Block(m, body), out), LineEnding(Block(m, body), current), after);
    }
  }

  /** A block in a file with CR LF line endings has them too. */
  lemma {:induction false} MergedWithCrlf(scan: Scan, m: Marks, body: Bytes, current: Bytes)
    requires ScanOk(scan) && MarksOk(m) && Rendered(scan, m, body) && ScanMerge(scan, m, current, Block(m, body)).Ok?
    requires AllCrlf(current) && WholeLines(current)
    ensures var out := ScanMerge(scan, m, current, Block(m, body)).bytes;
            AllCrlf(out) && ScanManaged(scan, m, out).Ok? && CR in ScanManaged(scan, m, out).bytes
  {
    var p := MergeLaws(scan, m, body, current);
    MergedLineEnding(scan, m, body, current, p);
    assert BlockText(m, [CR, LF], ToCrlf(body))[|m.begin|] == CR;
  }

  // ---------------------------------------------------------------- rollback

  /** The text holds the block with this body, up to CR LF instead of LF. */
  ghost predicate Holds(scan: Scan, m: Marks, body: Bytes, s: Bytes)
    requires ScanOk(scan)
  {
    ScanManaged(scan, m, s).Ok? && ToLf(ScanManaged(scan, m, s).bytes) == BlockText(m, [LF], body)
  }

  /** Rolling an update back puts the earlier block, as it was extracted from the backup, into the
      file as it stands now, whatever the user has made of either file around the block. The block is
      the earlier one exactly unless the file now has CR LF line endings and the earlier block has a
      carriage return: then its lines with CR LF get a second carriage return. */
  lemma {:induction false} RollbackRestoresBlock(scan: Scan, m: Marks, body: Bytes, backup: Bytes, current: Bytes)
    requires ScanOk(scan) && MarksOk(m) && CR !in body && Holds(scan, m, body, backup) && ScanManaged(scan, m, current).Ok?
    ensures var saved := ScanManaged(scan, m, backup).bytes;
            && ScanMerge(scan, m, current, saved + [LF]).Ok?
            && var restored := ScanMerge(scan, m, current, saved + [LF]).bytes;
               && (Holds(scan, m, body, restored) <==> !(AllCrlf(current) && CR in saved))
               && (ScanManaged(scan, m, restored).Ok? ==> ScanRemove(scan, m, restored) == ScanRemove(scan, m, current))
  {
    var saved := ScanManaged(scan, m, backup).bytes;
    var first, inner := SavedBlock(scan, m, backup);
    var p := Surroundings(scan, m, current, saved + [LF]);
    assert p.Between?;
    if !AllCrlf(current) {
      RestoredPlainly(scan, m, first, inner, current, p);
    } else if first == [CR, LF] {
      assert saved[|m.begin|] == CR;
      RestoredBroken(scan, m, inner, current, p);
    } else {
      RestoredWithCrlf(scan, m, inner, current, p);
      PlainBlock(m, body);
      if CR !in saved {
        AlreadyLf(saved);
      }
    }
  }

  /** What is extracted from a text is a block. */
  lemma {:induction false} SavedBlock(scan: Scan, m: Marks, s: Bytes) returns (first: Bytes, body: Bytes)
    requires ScanOk(scan) && MarksOk(m) && ScanManaged(scan, m, s).Ok?
    ensures ScanManaged(scan, m, s).bytes == BlockText(m, first, body) && BlockOk(scan, m, first, body, [LF])
  {
    assert PositionFact(scan, s, m.begin, 0, 0) && PositionFact(scan, s, m.end, 0, 0);
    var b, e := scan(s, m.begin, 0)[0], scan(s, m.end, 0)[0];
    first := LineOfBegin(m, s, b, e);
    body := BodyBetween(scan, m, s, first, b, e);
  }

  lemma {:induction false} BodyBetween(scan: Scan, m: Marks, s: Bytes, first: Bytes, b: nat, e: nat) returns (body: Bytes)
    requires ScanOk(scan) && MarksOk(m) && MarkerAt(s, m.begin, b) && MarkerAt(s, m.end, e)
    requires scan(s, m.begin, 0) == [b] && scan(s, m.end, 0) == [e]
    requires LineBreak(first) && b + |m.begin| + |first| <= e && s[b + |m.begin|..b + |m.begin| + |first|] == first
    requires WholeLines(s[..b + |m.begin| + |first|]) && WholeLines(s[b + |m.begin| + |first|..e])
    ensures s[b..e + |m.end|] == BlockText(m, first, body) && BlockOk(scan, m, first, body, [LF])
  {
    var h := b + |m.begin| + |first|;
    body := s[h..e];
    BodyClean(scan, s, m.begin, h, e);
    BodyClean(scan, s, m.end, h, e);
    assert s[b..e + |m.end|] == s[b..b + |m.begin|] + s[b + |m.begin|..h] + s[h..e] + s[e..e + |m.end|];
  }

  /** The line break behind the first marker line. */
  lemma {:induction false} LineOfBegin(m: Marks, s: Bytes, b: nat, e: nat) returns (first: Bytes)
    requires MarksOk(m) && MarkerAt(s, m.begin, b) && MarkerAt(s, m.end, e) && b <= e
    ensures LineBreak(first) && b + |m.begin| + |first| <= e && s[b + |m.begin|..b + |m.begin| + |first|] == first
    ensures WholeLines(s[..b + |m.begin| + |first|]) && WholeLines(s[b + |m.begin| + |first|..e])
  {
    var h := b + |m.begin|;
    assert s[..e] == [] || s[..e][e - 1] == LF;
    MarkIsPlain(s, m.begin, b);
    if e == b {
      MarkIsPlain(s, m.end, b);
    }
    assert e - 1 >= h;
    first := if s[h] == LF then [LF] else [CR, LF];
    assert s[h..h + |first|] == first;
    assert s[..h + |first|][h + |first| - 1] == LF;
    assert s[h + |first|..e] == [] || s[h + |first|..e][e - h - |first| - 1] == LF;
  }

  /** A marker line ends at its first carriage return or line feed. */
  lemma {:induction false} MarkIsPlain(s: Bytes, marker: Bytes, b: nat)
    requires MarkerAt(s, marker, b) && Plain(marker)
    ensures forall i :: b <= i < b + |marker| ==> s[i] != LF && s[i] != CR
    ensures b + |marker| == |s| || s[b + |marker|] == LF || s[b + |marker|] == CR
  {
    assert forall i :: b <= i < b + |marker| ==> s[b..b + |marker|][i - b] == s[i];
  }

  /** Between the marker lines there is no other one. */
  lemma {:induction false} BodyClean(scan: Scan, s: Bytes, marker: Bytes, h: nat, e: nat)
    requires ScanOk(scan) && marker != [] && h <= e <= |s| && WholeLines(s[..h]) && WholeLines(s[..e])
    requires |scan(s, marker, 0)| == 1 && (scan(s, marker, 0)[0] < h || scan(s, marker, 0)[0] >= e)
    ensures scan(s[h..e], marker, 0) == []
  {
    Split(scan, s, marker, e);
    HeadAndTail(scan(s[..e], marker, 0), scan(s[e..], marker, e));
    assert PositionFact(scan, s[..e], marker, 0, 0);
    assert s[..e][..h] == s[..h] && s[..e][h..] == s[h..e];
    SuffixClean(scan, s[..e], marker, h);
  }

  lemma {:induction false} RestoredPlainly(scan: Scan, m: Marks, first: Bytes, body: Bytes, current: Bytes, p: Place)
    requires ScanOk(scan) && MarksOk(m) && PlaceOk(p, current) && Surrounds(scan, m, current, p) && BlockOk(scan, m, first, body, [LF])
    ensures var saved := BlockText(m, first, body);
            var restored := Before(current, p) + (saved + [LF]) + After(current, p);
            ScanManaged(scan, m, restored) == Ok(saved) && ScanRemove(scan, m, restored) == Ok(Before(current, p) + After(current, p))
  {
    AsText(m, Before(current, p), first, body, [LF], After(current, p));
    TextOps(scan, m, Before(current, p), first, body, [LF], After(current, p), []);
  }

  lemma {:induction false} RestoredWithCrlf(scan: Scan, m: Marks, body: Bytes, current: Bytes, p: Place)
    requires ScanOk(scan) && MarksOk(m) && PlaceOk(p, current) && Surrounds(scan, m, current, p) && BlockOk(scan, m, [LF], body, [LF])
    ensures var saved := BlockText(m, [LF], body);
            var restored := Before(current, p) + ToCrlf(saved + [LF]) + After(current, p);
            && ScanManaged(scan, m, restored).Ok? && ToLf(ScanManaged(scan, m, restored).bytes) == saved
            && ScanRemove(scan, m, restored) == Ok(Before(current, p) + After(current, p))
  {
    var crlf, inner := [CR, LF], ToCrlf(body);
    CrlfBlock(m, body);
    CrlfWhole(body);
    assert CrlfFact(scan, body, m.begin) && CrlfFact(scan, body, m.end);
    BackToLf(BlockText(m, [LF], body));
    AsText(m, Before(current, p), crlf, inner, crlf, After(current, p));
    TextOps(scan, m, Before(current, p), crlf, inner, crlf, After(current, p), []);
  }

  lemma {:induction false} RestoredBroken(scan: Scan, m: Marks, body: Bytes, current: Bytes, p: Place)
    requires ScanOk(scan) && MarksOk(m) && PlaceOk(p, current) && Surrounds(scan, m, current, p)
    requires BlockOk(scan, m, [CR, LF], body, [LF])
    ensures var restored := Before(current, p) + ToCrlf(BlockText(m, [CR, LF], body) + [LF]) + After(current, p);
            ScanManaged(scan, m, restored) == Refused
  {
    var head, hidden := BrokenBlock(m, body);
    assert WholeLines(m.begin + [LF]);
    assert DoubleCrFact(scan, m.begin + [LF], m.begin) && CrlfFact(scan, body, m.begin);
    CrlfWhole(m.begin + [LF]);
    CrlfWhole(ToCrlf(m.begin + [LF]));
    CrlfWhole(body);
    Concat(scan, head, ToCrlf(body), m.begin, 0);
    Anywhere(scan, ToCrlf(body), m.begin, |head|);
    WholeConcat(head, ToCrlf(body));
    HiddenBegin(scan, m, Before(current, p), hidden, After(current, p));
  }

  lemma {:induction false} HiddenBegin(scan: Scan, m: Marks, before: Bytes, hidden: Bytes, after: Bytes)
    requires ScanOk(scan) && MarksOk(m) && WholeLines(before) && WholeLines(hidden)
    requires scan(before, m.begin, 0) == [] && scan(hidden, m.begin, 0) == [] && scan(after, m.begin, 0) == []
    ensures scan(before + (hidden + (m.end + [CR, LF])) + after, m.begin, 0) == []
  {
    var tail := m.end + [CR, LF];
    var block := hidden + tail;
    MarkLine(scan, m.end, [CR, LF], m.begin, |before| + |hidden|);
    Anywhere(scan, hidden, m.begin, |before|);
    Concat(scan, hidden, tail, m.begin, |before|);
    WholeConcat(hidden, tail);
    Anywhere(scan, after, m.begin, |before| + |block|);
    ThreePieces(scan, before, block, after, m.begin, 0);
  }

  /** The first marker line has got two carriage returns. */
  lemma {:induction false} BrokenBlock(m: Marks, body: Bytes) returns (head: Bytes, hidden: Bytes)
    requires MarksOk(m)
    ensures head == ToCrlf(ToCrlf(m.begin + [LF])) && hidden == head + ToCrlf(body)
    ensures ToCrlf(BlockText(m, [CR, LF], body) + [LF]) == hidden + (m.end + [CR, LF])
  {
    assert ToCrlf([LF]) == [CR, LF] by { assert [LF][1..] == []; }
    CrlfPlain(m.begin);
    CrlfPlain(m.end);
    CrlfConcat(m.begin, [LF]);
    head := ToCrlf(ToCrlf(m.begin + [LF]));
    hidden := head + ToCrlf(body);
    var tail := m.end + [LF];
    assert BlockText(m, [CR, LF], body) + [LF] == ToCrlf(m.begin + [LF]) + body + tail;
    CrlfConcat(ToCrlf(m.begin + [LF]) + body, tail);
    CrlfConcat(ToCrlf(m.begin + [LF]), body);
    CrlfConcat(m.end, [LF]);
  }

  /** Rolling a fresh install back removes only what the install added: the block, and at most one
      line feed stays behind. */
  lemma {:induction false} RollbackOfFreshInstall(scan: Scan, m: Marks, body: Bytes, original: Bytes)
    requires ScanOk(scan) && MarksOk(m) && Rendered(scan, m, body)
    requires ScanMerge(scan, m, original, Block(m, body)).Ok? && scan(original, m.begin, 0) == []
    ensures ScanRemove(scan, m, ScanMerge(scan, m, original, Block(m, body)).bytes)
            == Ok(if WholeLines(original) then original else original + [LF])
  {
    var p := MergeLaws(scan, m, body, original);
  }

  // ---------------------------------------------------------------- the installer's own scan

  lemma {:induction false} OwnScan(m: Marks, current: Bytes, block: Bytes)
    ensures ScanOk(MarkerScan())
    ensures ScanMerge(MarkerScan(), m, current, block) == Merge(m, current, block)
    ensures ScanManaged(MarkerScan(), m, current) == Managed(m, current)
    ensures ScanRemove(MarkerScan(), m, current) == Remove(m, current)
  {
    MarkerScanOk();
  }

  /** The whole of a merge in the installer's file: what is refused, what is kept, what comes back
      out, and what removal and a second merge do. */
  lemma {:induction false} InstalledBlockLaws(body: Bytes, current: Bytes)
    requires Rendered(MarkerScan(), CODEX, body) && Merge(CODEX, current, Block(CODEX, body)).Ok?
    ensures var out := Merge(CODEX, current, Block(CODEX, body)).bytes;
            && Managed(CODEX, out).Ok? && ToLf(Managed(CODEX, out).bytes) == BlockText(CODEX, [LF], body)
            && (if Markers(current, CODEX.begin, 0) == []
                then Remove(CODEX, out) == Ok(if WholeLines(current) then current else current + [LF])
                else Remove(CODEX, out) == Remove(CODEX, current))
            && (Merge(CODEX, out, Block(CODEX, body)) == Ok(out) <==>
                  !(AllCrlf(current) && Markers(current, CODEX.begin, 0) == [] && !WholeLines(current)
                    && current[|current| - 1] != CR))
  {
    CodexMarksOk();
    OwnScan(CODEX, current, Block(CODEX, body));
    var out := Merge(CODEX, current, Block(CODEX, body)).bytes;
    OwnScan(CODEX, out, Block(CODEX, body));
    var p := MergeLaws(MarkerScan(), CODEX, body, current);
    var q := MergeIsIdempotent(MarkerScan(), CODEX, body, current);
  }

  lemma {:induction false} InstalledWithCrlf(body: Bytes, current: Bytes)
    requires Rendered(MarkerScan(), CODEX, body) && Merge(CODEX, current, Block(CODEX, body)).Ok?
    requires AllCrlf(current) && WholeLines(current)
    ensures var out := Merge(CODEX, current, Block(CODEX, body)).bytes;
            AllCrlf(out) && Managed(CODEX, out).Ok? && CR in Managed(CODEX, out).bytes
  {
    CodexMarksOk();
    OwnScan(CODEX, current, Block(CODEX, body));
    OwnScan(CODEX, Merge(CODEX, current, Block(CODEX, body)).bytes, []);
    MergedWithCrlf(MarkerScan(), CODEX, body, current);
  }

  /** Rollback in the installer's file. */
  lemma {:induction false} InstalledRollback(body: Bytes, backup: Bytes, current: Bytes)
    requires CR !in body && Managed(CODEX, backup).Ok? && ToLf(Managed(CODEX, backup).bytes) == BlockText(CODEX, [LF], body)
    requires Managed(CODEX, current).Ok?
    ensures var saved := Managed(CODEX, backup).bytes;
            && Merge(CODEX, current, saved + [LF]).Ok?
            && var restored := Merge(CODEX, current, saved + [LF]).bytes;
               && ((Managed(CODEX, restored).Ok? && ToLf(Managed(CODEX, restored).bytes) == BlockText(CODEX, [LF], body))
                   <==> !(AllCrlf(current) && CR in saved))
               && (Managed(CODEX, restored).Ok? ==> Remove(CODEX, restored) == Remove(CODEX, current))
  {
    CodexMarksOk();
    OwnScan(CODEX, backup, []);
    var saved := Managed(CODEX, backup).bytes;
    OwnScan(CODEX, current, saved + [LF]);
    RollbackRestoresBlock(MarkerScan(), CODEX, body, backup, current);
    OwnScan(CODEX, Merge(CODEX, current, saved + [LF]).bytes, []);
  }
}
