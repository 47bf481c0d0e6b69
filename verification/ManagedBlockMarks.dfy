/** Which texts have marker lines, and which of them the block operations accept. */
module ManagedBlockMarks {
  import opened FileBytes
  import opened ManagedBlock

  // ---------------------------------------------------------------- all marker lines are found

  ghost predicate NoLineFeeds(lines: seq<Bytes>) {
    forall i :: 0 <= i < |lines| ==> LF !in lines[i]
  }

  lemma {:induction false} LinesHaveNone(s: Bytes)
    ensures NoLineFeeds(Lines(s))
  {
    if s != [] {
      LinesHaveNone(s[1..]);
      var rest := Lines(s[1..]);
      assert forall i :: 1 <= i < |rest| ==> rest[1..][i - 1] == rest[i];
    }
  }

  /** A text that starts with the marker and a line end has it as its first line. */
  lemma {:induction false} FirstIsMarker(lines: seq<Bytes>, marker: Bytes)
    requires lines != [] && NoLineFeeds(lines) && LF !in marker && MarkerAt(Join(lines), marker, 0)
    ensures IsMarker(lines[0], marker)
  {
    var s, line, e := Join(lines), lines[0], |marker|;
    assert s[..e] == marker && s[..|line|] == line;
    if |lines| > 1 {
      assert s[|line|] == LF;
    }
    assert forall i :: 0 <= i < |line| ==> s[i] == line[i];
    assert line[..e] == marker;
    if |line| > e {
      assert line[e] == CR;
    }
  }

  lemma {:induction false} LaterMarker(lines: seq<Bytes>, marker: Bytes, p: nat)
    requires lines != [] && NoLineFeeds(lines) && p > 0 && MarkerAt(Join(lines), marker, p)
    ensures |lines| > 1 && p > |lines[0]| && MarkerAt(Join(lines[1..]), marker, p - |lines[0]| - 1)
  {
    var s, line := Join(lines), lines[0];
    assert s[..p][p - 1] == s[p - 1];
    assert forall i :: 0 <= i < |line| ==> s[i] == line[i];
    assert p > |line|;
    var tail, q := Join(lines[1..]), p - |line| - 1;
    assert s == line + [LF] + tail;
    assert tail[q..q + |marker|] == s[p..p + |marker|];
    if q > 0 {
      assert tail[..q][q - 1] == s[..p][p - 1];
    }
  }

  lemma {:induction false} EveryMarker(lines: seq<Bytes>, marker: Bytes, base: int, p: nat)
    requires lines != [] && NoLineFeeds(lines) && LF !in marker && MarkerAt(Join(lines), marker, p)
    ensures base + p in MarkersOf(lines, marker, base)
    decreases |lines|
  {
    if p == 0 {
      FirstIsMarker(lines, marker);
      assert Here(lines[0], marker, base)[0] == base;
    } else {
      LaterMarker(lines, marker, p);
      EveryMarker(lines[1..], marker, base + |lines[0]| + 1, p - |lines[0]| - 1);
    }
  }

  ghost predicate Rising(positions: seq<int>, base: int) {
    (forall i :: 0 <= i < |positions| ==> base <= positions[i])
    && forall i, j :: 0 <= i < j < |positions| ==> positions[i] < positions[j]
  }

  lemma {:induction false} MarkersRise(lines: seq<Bytes>, marker: Bytes, base: int)
    ensures Rising(MarkersOf(lines, marker, base), base)
    decreases |lines|
  {
    if lines != [] {
      MarkersRise(lines[1..], marker, base + |lines[0]| + 1);
    }
  }

  /** The scan finds exactly the marker lines, in their order: the lines that hold the marker and
      nothing else, up to a carriage return. */
  lemma {:induction false} MarkersIff(s: Bytes, marker: Bytes)
    requires LF !in marker
    ensures forall p: nat :: p in Markers(s, marker, 0) <==> MarkerAt(s, marker, p)
    ensures Rising(Markers(s, marker, 0), 0)
  {
    MarkersRise(Lines(s), marker, 0);
    LinesHaveNone(s);
    JoinLines(s);
    forall p: nat
      ensures p in Markers(s, marker, 0) <==> MarkerAt(s, marker, p)
    {
      if MarkerAt(s, marker, p) {
        EveryMarker(Lines(s), marker, 0, p);
      }
      if i :| 0 <= i < |Markers(s, marker, 0)| && Markers(s, marker, 0)[i] == p {
        MarkersAre(s, marker, 0, i);
      }
    }
  }

  // ---------------------------------------------------------------- what is accepted

  ghost predicate Unmarked(s: Bytes, marker: Bytes) {
    forall p: nat :: !MarkerAt(s, marker, p)
  }

  /** The marker line at `p` is the only one. */
  ghost predicate MarkedAt(s: Bytes, marker: Bytes, p: nat) {
    MarkerAt(s, marker, p) && forall q: nat :: MarkerAt(s, marker, q) ==> q == p
  }

  /** No marker line of either kind. */
  ghost predicate NoBlock(m: Marks, s: Bytes) {
    Unmarked(s, m.begin) && Unmarked(s, m.end)
  }

  /** One marker line of each kind, from `b` to `e`. */
  ghost predicate Marked(m: Marks, s: Bytes, b: nat, e: nat) {
    MarkedAt(s, m.begin, b) && MarkedAt(s, m.end, e)
  }

  /** The same for any rising list of the places where something is. */
  lemma {:induction false} CountOf(at: seq<int>, there: nat -> bool)
    requires Rising(at, 0) && forall p: nat :: p in at <==> there(p)
    ensures at == [] <==> forall p: nat :: !there(p)
    ensures forall p: nat :: at == [p] <==> there(p) && forall q: nat :: there(q) ==> q == p
    ensures |at| == 1 ==> at[0] >= 0 && there(at[0])
  {
    assert forall i :: 0 <= i < |at| ==> at[i] in at && at[i] >= 0;
    if at != [] {
      var p: nat := at[0];
      assert there(p);
    }
    forall p: nat
      ensures at == [p] <==> there(p) && forall q: nat :: there(q) ==> q == p
    {
      if at == [p] {
        assert p in at;
      } else if there(p) && |at| > 1 {
        var x: nat, y: nat := at[0], at[1];
        assert x < y && there(x) && there(y);
      }
    }
  }

  lemma {:induction false} MarkerCount(s: Bytes, marker: Bytes)
    requires LF !in marker
    ensures Markers(s, marker, 0) == [] <==> Unmarked(s, marker)
    ensures forall p: nat :: Markers(s, marker, 0) == [p] <==> MarkedAt(s, marker, p)
    ensures |Markers(s, marker, 0)| == 1 ==> exists p: nat :: MarkedAt(s, marker, p)
  {
    MarkersIff(s, marker);
    var at := Markers(s, marker, 0);
    CountOf(at, (p: nat) => MarkerAt(s, marker, p));
    if |at| == 1 {
      var p: nat := at[0];
      assert at == [p];
    }
  }

  /** A block can be merged into a text exactly when the text has no marker line, or one of each kind
      with the begin not behind the end. */
  lemma {:induction false} MergesIff(m: Marks, s: Bytes, block: Bytes)
    requires MarksOk(m)
    ensures Merge(m, s, block).Ok? <==> NoBlock(m, s) || exists b: nat, e: nat :: Marked(m, s, b, e) && b <= e
  {
    MarkerCount(s, m.begin);
    MarkerCount(s, m.end);
    if Merge(m, s, block).Ok? && Markers(s, m.begin, 0) != [] {
      OneOfEach(m, s);
    }
  }

  lemma {:induction false} OneOfEach(m: Marks, s: Bytes)
    requires MarksOk(m) && |Markers(s, m.begin, 0)| == |Markers(s, m.end, 0)| == 1
    ensures Markers(s, m.begin, 0)[0] >= 0 && Markers(s, m.end, 0)[0] >= 0
    ensures Marked(m, s, Markers(s, m.begin, 0)[0], Markers(s, m.end, 0)[0])
  {
    MarkersIff(s, m.begin);
    MarkersIff(s, m.end);
    MarkerCount(s, m.begin);
    MarkerCount(s, m.end);
    var b: nat, e: nat := Markers(s, m.begin, 0)[0], Markers(s, m.end, 0)[0];
    assert Markers(s, m.begin, 0) == [b] && Markers(s, m.end, 0) == [e];
  }

  /** What is extracted is the text from the one marker line to the end of the other, and a block is
      removed wherever there is one of each. */
  lemma {:induction false} ManagedIff(m: Marks, s: Bytes)
    requires MarksOk(m)
    ensures Managed(m, s).Ok? <==> exists b: nat, e: nat :: Marked(m, s, b, e) && b <= e
    ensures forall b: nat, e: nat :: Marked(m, s, b, e) && b <= e ==> Managed(m, s) == Ok(s[b..e + |m.end|])
    ensures Remove(m, s).Ok? <==> exists b: nat, e: nat :: Marked(m, s, b, e)
  {
    MarkerCount(s, m.begin);
    MarkerCount(s, m.end);
    if |Markers(s, m.begin, 0)| == |Markers(s, m.end, 0)| == 1 {
      OneOfEach(m, s);
    }
  }
}
