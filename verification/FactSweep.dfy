/** One tick of the fact sweep: which facts of a page are sent, which of them fit into a request, and
    how the cursor moves. */
module FactSweep {
  import opened Options

  type Id = string

  /** What is tracked of a fact: a change of either part makes it a changed fact. */
  datatype Record = Record(fingerprint: string, group: string)

  /** A stored point; `record` is there when the fact is eligible. */
  datatype Point = Point(id: Id, record: Option<Record>)

  datatype Fact = Fact(id: Id, record: Record)

  datatype State = State(
    binding: string,
    inProgress: bool,
    offset: Option<nat>,
    pending: bool,
    pageStart: Option<nat>,
    processed: seq<Id>,
    seen: map<Id, Record>,
    previous: map<Id, Record>,
    deleted: set<Id>)

  const NEW := State("", false, None, false, None, [], map[], map[], {})

  const MAX_TRACKED_FACTS := 40000

  predicate Apart(points: seq<Point>, i: nat, j: nat) {
    i < j < |points| ==> points[i].id != points[j].id
  }

  predicate DistinctIds(points: seq<Point>) {
    forall i: nat, j: nat :: i < |points| && j < |points| ==> Apart(points, i, j)
  }

  lemma {:induction false} SameId(points: seq<Point>, i: nat, j: nat)
    requires DistinctIds(points) && i < |points| && j < |points|
    ensures points[i].id == points[j].id <==> i == j
  {
    assert Apart(points, i, j) && Apart(points, j, i);
  }

  lemma {:induction false} PieceIsDistinct(points: seq<Point>, b: nat, e: nat)
    requires DistinctIds(points) && b <= e <= |points|
    ensures DistinctIds(points[b..e])
  {
    forall i: nat, j: nat | i < e - b && j < e - b
      ensures Apart(points[b..e], i, j)
    {
      SameId(points, b + i, b + j);
    }
  }

  // ---------------------------------------------------------------- what is sent

  /** What decides whether a point is sent. */
  datatype View = View(processed: set<Id>, seen: map<Id, Record>, previous: map<Id, Record>)

  function KnownRecord(v: View, id: Id): Option<Record> {
    if id in v.seen then Some(v.seen[id]) else if id in v.previous then Some(v.previous[id]) else None
  }

  predicate Tracked(v: View, p: Point) {
    p.id !in v.processed && p.record.Some?
  }

  predicate Sent(v: View, p: Point) {
    Tracked(v, p) && KnownRecord(v, p.id) != p.record
  }

  /** The changed facts of a page, in its order. */
  function Facts(points: seq<Point>, v: View): seq<Fact> {
    if points == [] then []
    else
      var last := points[|points| - 1];
      Facts(points[..|points| - 1], v) + if Sent(v, last) then [Fact(last.id, last.record.value)] else []
  }

  /** The records of a page that go into the sweep. */
  function Records(points: seq<Point>, v: View): map<Id, Record> {
    if points == [] then map[]
    else
      var last := points[|points| - 1];
      var before := Records(points[..|points| - 1], v);
      if Tracked(v, last) then before[last.id := last.record.value] else before
  }

  lemma {:induction false} FactsConcat(a: seq<Point>, b: seq<Point>, v: View)
    ensures Facts(a + b, v) == Facts(a, v) + Facts(b, v)
  {
    if b == [] {
      assert a + b == a;
    } else {
      var n := |b| - 1;
      assert (a + b)[..|a + b| - 1] == a + b[..n];
      FactsConcat(a, b[..n], v);
    }
  }

  lemma {:induction false} FactsAgree(points: seq<Point>, v: View, w: View)
    requires forall i :: 0 <= i < |points| ==> Sent(v, points[i]) == Sent(w, points[i])
    ensures Facts(points, v) == Facts(points, w)
  {
    if points != [] {
      FactsAgree(points[..|points| - 1], v, w);
    }
  }

  lemma {:induction false} NoFacts(points: seq<Point>, v: View)
    requires forall i :: 0 <= i < |points| ==> !Sent(v, points[i])
    ensures Facts(points, v) == []
  {
    if points != [] {
      NoFacts(points[..|points| - 1], v);
    }
  }

  /** A fact is sent exactly when it is an eligible point of the page that has not been processed, and the
      record that the sweep has for it, or the sweep before, is another one or missing. */
  lemma {:induction false} FactsAre(points: seq<Point>, v: View, f: Fact)
    ensures f in Facts(points, v) <==> IsPointOf(points, f) && f.id !in v.processed && News(v, f)
  {
    if points != [] {
      FactsAre(points[..|points| - 1], v, f);
      assert forall i :: 0 <= i < |points| - 1 ==> points[..|points| - 1][i] == points[i];
    }
  }

  predicate IsPointOf(points: seq<Point>, f: Fact) {
    exists i :: 0 <= i < |points| && points[i] == Point(f.id, Some(f.record))
  }

  predicate News(v: View, f: Fact) {
    if f.id in v.seen then v.seen[f.id] != f.record else f.id in v.previous ==> v.previous[f.id] != f.record
  }

  lemma {:induction false} RecordsAre(points: seq<Point>, v: View, i: nat)
    requires DistinctIds(points) && i < |points|
    ensures points[i].id in Records(points, v) <==> Tracked(v, points[i])
    ensures Tracked(v, points[i]) ==> Some(Records(points, v)[points[i].id]) == points[i].record
  {
    var n := |points| - 1;
    if i < n {
      PieceIsDistinct(points, 0, n);
      assert points[0..n] == points[..n];
      RecordsAre(points[..n], v, i);
      SameId(points, i, n);
    } else if points[n].id in Records(points[..n], v) {
      RecordIds(points[..n], v, points[n].id);
      var j :| 0 <= j < n && points[..n][j].id == points[n].id;
      SameId(points, j, n);
    }
  }

  lemma {:induction false} RecordIds(points: seq<Point>, v: View, id: Id)
    requires id in Records(points, v)
    ensures exists i :: 0 <= i < |points| && points[i].id == id
  {
    var n := |points| - 1;
    if points[n].id != id {
      RecordIds(points[..n], v, id);
      var i :| 0 <= i < n && points[..n][i].id == id;
      assert points[i].id == id;
    }
  }

  // ---------------------------------------------------------------- how far a tick goes

  /** The largest number of facts, up to `n`, that makes a request of allowed size. */
  function LargestFit(n: nat, fits: nat -> bool): (k: nat)
    ensures k <= n && (k > 0 ==> fits(k)) && (forall m :: k < m <= n ==> !fits(m))
  {
    if n == 0 || fits(n) then n else LargestFit(n - 1, fits)
  }

  /** The first position of an id. */
  function IndexOf(points: seq<Point>, id: Id): (i: nat)
    ensures i <= |points| && (i < |points| ==> points[i].id == id)
    ensures forall j :: 0 <= j < i ==> points[j].id != id
  {
    if points == [] || points[0].id == id then 0 else 1 + IndexOf(points[1..], id)
  }

  /** The number of points of the page that are processed when the first `k` facts are sent. */
  function Through(points: seq<Point>, facts: seq<Fact>, k: nat): nat
    requires k <= |facts|
  {
    if k == |facts| || k == 0 then |points| else IndexOf(points, facts[k - 1].id) + 1
  }

  /** Sending some of the facts processes exactly the points up to the last of them. */
  lemma {:induction false} ThroughCuts(points: seq<Point>, v: View, k: nat)
    requires DistinctIds(points) && 0 < k <= |Facts(points, v)|
    ensures var t := Through(points, Facts(points, v), k);
            0 < t <= |points| && Facts(points[..t], v) == Facts(points, v)[..k]
  {
    var facts := Facts(points, v);
    if k == |facts| {
      assert points[..|points|] == points;
    } else {
      var t := Cut(points, v, k);
      SameId(points, IndexOf(points, facts[k - 1].id), t);
    }
  }

  /** The position of the `k`th fact. */
  lemma {:induction false} Cut(points: seq<Point>, v: View, k: nat) returns (t: nat)
    requires 0 < k <= |Facts(points, v)|
    ensures t < |points| && points[t].id == Facts(points, v)[k - 1].id
    ensures Facts(points[..t + 1], v) == Facts(points, v)[..k]
  {
    var n := |points| - 1;
    if k <= |Facts(points[..n], v)| {
      t := Cut(points[..n], v, k);
      assert points[..n][..t + 1] == points[..t + 1];
    } else {
      t := n;
      assert points[..n + 1] == points;
    }
  }

  // ---------------------------------------------------------------- a tick

  /** A changed catalog or configuration forgets all progress. */
  function Rebound(st: State, binding: string): State {
    if st.binding == binding then st
    else st.(binding := binding, inProgress := false, offset := None, pending := false, pageStart := None, processed := [],
             seen := map[], previous := map[], deleted := {})
  }

  function Started(st: State): State {
    if st.inProgress then st else st.(inProgress := true, offset := None, seen := map[])
  }

  function PageOffset(st: State): Option<nat> {
    if st.pending then st.pageStart else st.offset
  }

  function ViewOf(st: State): View {
    View((set id | id in st.processed), st.seen, st.previous)
  }

  /** A page of the store and the offset of the next one. */
  datatype Page = Page(points: seq<Point>, next: Option<nat>)

  function Scroll(store: seq<Point>, offset: Option<nat>, limit: nat): Page {
    var b := if offset.None? then 0 else offset.value;
    if b + limit < |store| then Page(store[b..b + limit], Some(b + limit))
    else Page(if b <= |store| then store[b..] else [], None)
  }

  /** The ids of the processed points that were not processed before, in order. */
  function NewIds(points: seq<Point>, processed: set<Id>): seq<Id> {
    if points == [] then []
    else
      var last := points[|points| - 1];
      NewIds(points[..|points| - 1], processed) + if last.id in processed then [] else [last.id]
  }

  /** The records of processed points. */
  function SeenAfter(st: State, points: seq<Point>, through: nat): map<Id, Record>
    requires through <= |points|
  {
    var records := Records(points, ViewOf(st));
    st.seen + map id | id in records && (exists i :: 0 <= i < through && points[i].id == id) :: records[id]
  }

  /** The state after a tick that has processed the first `through` points of a page. */
  function Advanced(st: State, page: Page, through: nat): State
    requires through <= |page.points|
  {
    var seen := SeenAfter(st, page.points, through);
    if through < |page.points| then
      st.(seen := seen, pending := true, pageStart := PageOffset(st), offset := PageOffset(st),
          processed := st.processed + NewIds(page.points[..through], ViewOf(st).processed))
    else if page.next.Some? then
      st.(seen := seen, pending := false, pageStart := None, processed := [], offset := page.next)
    else
      st.(seen := map[], pending := false, pageStart := None, processed := [], offset := None, inProgress := false,
          previous := seen, deleted := (set id | id in st.previous && id !in seen))
  }
}
