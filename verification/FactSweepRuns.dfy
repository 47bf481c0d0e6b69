/** The fact sweep over many ticks, with failures between any two steps. */
module FactSweepRuns {
  import opened Options
  import opened FactSweep

  /** A tick fails before its proposal is stored, or after it and before the new state is saved. */
  datatype Outcome = Completes | FailsEarly | FailsLate

  /** What the configuration and the outside decide for a tick: the size of a page, which numbers of
      facts make a request of allowed size, and how the tick ends. */
  datatype Choice = Choice(limit: nat, fits: nat -> bool, outcome: Outcome)

  /** The state file and the stored proposals. */
  datatype World = World(state: State, proposals: seq<seq<Fact>>)

  function Tick(w: World, store: seq<Point>, binding: string, c: Choice): World {
    var st := Found(w, binding);
    var page := Scroll(store, PageOffset(st), c.limit);
    var facts := Facts(page.points, ViewOf(st));
    var k := LargestFit(|facts|, c.fits);
    if c.outcome.FailsEarly? || (k == 0 && facts != []) then w
    else Effect(w, st, page, facts[..k], Clip(Through(page.points, facts, k), |page.points|), c.outcome.Completes?)
  }

  /** The state in which a tick finds a sweep. */
  function Found(w: World, binding: string): State {
    Started(Rebound(w.state, binding))
  }

  /** A tick sends facts, processes the first `through` points of a page, and saves the state if
      nothing goes wrong. */
  function Effect(w: World, st: State, page: Page, sent: seq<Fact>, through: nat, saves: bool): World
    requires through <= |page.points|
  {
    var proposals := if sent != [] then w.proposals + [sent] else w.proposals;
    if !saves || |SeenAfter(st, page.points, through)| > MAX_TRACKED_FACTS then w.(proposals := proposals)
    else World(Advanced(st, page, through), proposals)
  }

  function Clip(n: nat, limit: nat): (r: nat)
    ensures r <= limit
  {
    if n <= limit then n else limit
  }

  // ---------------------------------------------------------------- nothing is tracked that was not proposed

  ghost predicate Proposed(proposals: seq<seq<Fact>>, f: Fact) {
    exists i :: 0 <= i < |proposals| && f in proposals[i]
  }

  ghost predicate AllProposed(proposals: seq<seq<Fact>>, tracked: map<Id, Record>) {
    forall id :: id in tracked ==> Proposed(proposals, Fact(id, tracked[id]))
  }

  ghost predicate Listed(w: World) {
    AllProposed(w.proposals, w.state.seen) && AllProposed(w.proposals, w.state.previous)
  }

  lemma {:induction false} MoreProposals(proposals: seq<seq<Fact>>, next: seq<Fact>, tracked: map<Id, Record>)
    requires AllProposed(proposals, tracked)
    ensures AllProposed(proposals + [next], tracked)
  {
    forall id | id in tracked
      ensures Proposed(proposals + [next], Fact(id, tracked[id]))
    {
      var i :| 0 <= i < |proposals| && Fact(id, tracked[id]) in proposals[i];
      assert (proposals + [next])[i] == proposals[i];
    }
  }

  /** A processed point is an old acquaintance, or among the facts that were sent. */
  lemma {:induction false} ProcessedIsKnownOrSent(points: seq<Point>, v: View, through: nat, j: nat)
    requires j < through <= |points| && Tracked(v, points[j])
    ensures KnownRecord(v, points[j].id) == points[j].record
            || Fact(points[j].id, points[j].record.value) in Facts(points[..through], v)
  {
    assert points[..through][j] == points[j];
    FactsAre(points[..through], v, Fact(points[j].id, points[j].record.value));
  }

  lemma {:induction false} ThroughSplits(points: seq<Point>, facts: seq<Fact>, v: View, k: nat) returns (through: nat)
    requires DistinctIds(points) && facts == Facts(points, v) && k <= |facts| && (k == 0 ==> facts == [])
    ensures through == Through(points, facts, k) <= |points|
    ensures Facts(points[..through], v) == facts[..k]
    ensures through < |points| ==> k > 0
  {
    through := Through(points, facts, k);
    if k > 0 {
      ThroughCuts(points, v, k);
    } else {
      assert points[..through] == points;
    }
  }

  lemma {:induction false} SeenIsProposed(st: State, points: seq<Point>, through: nat, proposals: seq<seq<Fact>>)
    requires DistinctIds(points) && through <= |points|
    requires AllProposed(proposals, st.seen) && AllProposed(proposals, st.previous)
    requires forall f :: f in Facts(points[..through], ViewOf(st)) ==> Proposed(proposals, f)
    ensures AllProposed(proposals, SeenAfter(st, points, through))
  {
    var v := ViewOf(st);
    var seen := SeenAfter(st, points, through);
    var records := Records(points, v);
    forall id | id in seen
      ensures Proposed(proposals, Fact(id, seen[id]))
    {
      if id in records && exists i :: 0 <= i < through && points[i].id == id {
        var i :| 0 <= i < through && points[i].id == id;
        RecordsAre(points, v, i);
        ProcessedIsKnownOrSent(points, v, through, i);
      }
    }
  }

  lemma {:induction false} ScrollIsDistinct(store: seq<Point>, offset: Option<nat>, limit: nat)
    requires DistinctIds(store)
    ensures DistinctIds(Scroll(store, offset, limit).points)
  {
    var b := if offset.None? then 0 else offset.value;
    if b <= |store| {
      var e := if b + limit < |store| then b + limit else |store|;
      PieceIsDistinct(store, b, e);
      assert Scroll(store, offset, limit).points == store[b..e];
    }
  }

  lemma {:induction false} AdvancedIsListed(st: State, page: Page, through: nat, proposals: seq<seq<Fact>>)
    requires through <= |page.points|
    requires AllProposed(proposals, st.previous) && AllProposed(proposals, SeenAfter(st, page.points, through))
    ensures Listed(World(Advanced(st, page, through), proposals))
  {
  }

  lemma {:induction false} EffectKeepsListed(w: World, st: State, page: Page, sent: seq<Fact>, through: nat, saves: bool)
    requires Listed(w) && AllProposed(w.proposals, st.seen) && AllProposed(w.proposals, st.previous)
    requires DistinctIds(page.points) && through <= |page.points| && sent == Facts(page.points[..through], ViewOf(st))
    ensures Listed(Effect(w, st, page, sent, through, saves))
  {
    var proposals := if sent != [] then w.proposals + [sent] else w.proposals;
    if sent != [] {
      MoreProposals(w.proposals, sent, w.state.seen);
      MoreProposals(w.proposals, sent, w.state.previous);
      MoreProposals(w.proposals, sent, st.seen);
      MoreProposals(w.proposals, sent, st.previous);
      assert forall f :: f in sent ==> f in proposals[|proposals| - 1];
    }
    SeenIsProposed(st, page.points, through, proposals);
    AdvancedIsListed(st, page, through, proposals);
  }

  lemma {:induction false} TickKeepsListed(w: World, store: seq<Point>, binding: string, c: Choice)
    requires Listed(w) && DistinctIds(store)
    ensures Listed(Tick(w, store, binding, c))
  {
    var st := Found(w, binding);
    var page := Scroll(store, PageOffset(st), c.limit);
    var facts := Facts(page.points, ViewOf(st));
    var k := LargestFit(|facts|, c.fits);
    ScrollIsDistinct(store, PageOffset(st), c.limit);
    if !c.outcome.FailsEarly? && (k > 0 || facts == []) {
      var through := ThroughSplits(page.points, facts, ViewOf(st), k);
      EffectKeepsListed(w, st, page, facts[..k], through, c.outcome.Completes?);
    }
  }

  /** What happens between two ticks is up to the outside: the store, the catalog and the
      configuration may change. */
  datatype Event = Event(store: seq<Point>, binding: string, choice: Choice)

  function Run(w: World, events: seq<Event>): World
    decreases |events|
  {
    if events == [] then w
    else
      var last := events[|events| - 1];
      Tick(Run(w, events[..|events| - 1]), last.store, last.binding, last.choice)
  }

  /** In every run, with any failures and any changes of the store between the ticks: a fact version is
      tracked only when a stored proposal lists it. */
  lemma {:induction false} TrackedIsProposed(events: seq<Event>)
    requires forall i :: 0 <= i < |events| ==> DistinctIds(events[i].store)
    ensures Listed(Run(World(NEW, []), events))
    decreases |events|
  {
    if events != [] {
      var n := |events| - 1;
      TrackedIsProposed(events[..n]);
      TickKeepsListed(Run(World(NEW, []), events[..n]), events[n].store, events[n].binding, events[n].choice);
    }
  }

  // ---------------------------------------------------------------- a sweep over a stable store

  /** The facts that differ from the previous sweep. */
  function Changed(points: seq<Point>, previous: map<Id, Record>): seq<Fact> {
    Facts(points, View({}, map[], previous))
  }

  /** These are the eligible points that were not there, or had another record. Each is listed once. */
  lemma {:induction false} ChangedIff(points: seq<Point>, previous: map<Id, Record>, f: Fact)
    ensures f in Changed(points, previous) <==> IsPointOf(points, f) && (f.id in previous ==> previous[f.id] != f.record)
    ensures DistinctIds(points) ==>
              forall i, j :: 0 <= i < j < |Changed(points, previous)| ==> Changed(points, previous)[i].id != Changed(points, previous)[j].id
  {
    FactsAre(points, View({}, map[], previous), f);
    if DistinctIds(points) {
      FactsAreDistinct(points, View({}, map[], previous));
    }
  }

  lemma {:induction false} FactsAreDistinct(points: seq<Point>, v: View)
    requires DistinctIds(points)
    ensures forall i, j :: 0 <= i < j < |Facts(points, v)| ==> Facts(points, v)[i].id != Facts(points, v)[j].id
  {
    if points != [] {
      var n := |points| - 1;
      PieceIsDistinct(points, 0, n);
      assert points[0..n] == points[..n];
      FactsAreDistinct(points[..n], v);
      forall i | 0 <= i < |Facts(points[..n], v)|
        ensures Facts(points[..n], v)[i].id != points[n].id
      {
        FactsAre(points[..n], v, Facts(points[..n], v)[i]);
        var j :| 0 <= j < n && points[..n][j] == Point(Facts(points[..n], v)[i].id, Some(Facts(points[..n], v)[i].record));
        SameId(points, j, n);
      }
    }
  }

  /** A map that holds exactly the records of the eligible points. */
  ghost predicate Tracks(tracked: map<Id, Record>, points: seq<Point>) {
    (forall i: nat :: TracksPoint(tracked, points, i)) && (forall id: Id :: Held(tracked, points, id))
  }

  predicate TracksPoint(tracked: map<Id, Record>, points: seq<Point>, i: nat) {
    i < |points| && points[i].record.Some? ==> points[i].id in tracked && Some(tracked[points[i].id]) == points[i].record
  }

  predicate Held(tracked: map<Id, Record>, points: seq<Point>, id: Id) {
    id in tracked ==> exists i :: 0 <= i < |points| && points[i].id == id && points[i].record.Some?
  }

  function Base(st: State): nat {
    if PageOffset(st).None? then 0 else PageOffset(st).value
  }

  /** A sweep that has sent the changed facts among the first `m` points. It stands at the page that
      starts at `Base`, of which some points are processed. */
  ghost predicate Sweeping(st: State, store: seq<Point>, previous: map<Id, Record>, m: nat) {
    && st.inProgress && st.previous == previous && m <= |store|
    && Base(st) + |st.processed| <= m
    && (forall i: nat :: ProcessedPoint(st.processed, store, Base(st), i))
    && Tracks(st.seen, store[..m])
    && (!st.pending ==> st.processed == [])
  }

  predicate ProcessedPoint(processed: seq<Id>, store: seq<Point>, b: nat, i: nat) {
    i < |processed| ==> b + i < |store| && processed[i] == store[b + i].id
  }

  lemma {:induction false} TracksAt(tracked: map<Id, Record>, store: seq<Point>, m: nat, i: nat)
    requires DistinctIds(store) && m <= |store| && i < |store| && Tracks(tracked, store[..m])
    ensures i < m ==> (store[i].id in tracked <==> store[i].record.Some?)
    ensures i < m && store[i].record.Some? ==> Some(tracked[store[i].id]) == store[i].record
    ensures i >= m ==> store[i].id !in tracked
  {
    if i < m {
      assert TracksPoint(tracked, store[..m], i);
      assert store[..m][i] == store[i];
    }
    if store[i].id in tracked {
      assert Held(tracked, store[..m], store[i].id);
      var j :| 0 <= j < m && store[..m][j].id == store[i].id && store[..m][j].record.Some?;
      SameId(store, i, j);
    }
  }

  lemma {:induction false} ProcessedAt(st: State, store: seq<Point>, previous: map<Id, Record>, m: nat, i: nat)
    requires DistinctIds(store) && Sweeping(st, store, previous, m) && i < |store|
    ensures store[i].id in ViewOf(st).processed <==> Base(st) <= i < Base(st) + |st.processed|
  {
    if Base(st) <= i < Base(st) + |st.processed| {
      assert ProcessedPoint(st.processed, store, Base(st), i - Base(st));
    }
    if store[i].id in st.processed {
      var j :| 0 <= j < |st.processed| && st.processed[j] == store[i].id;
      assert ProcessedPoint(st.processed, store, Base(st), j);
      SameId(store, i, Base(st) + j);
    }
  }

  /** Which points of the store a sweep still sends. */
  lemma {:induction false} SentAt(st: State, store: seq<Point>, previous: map<Id, Record>, m: nat, i: nat)
    requires DistinctIds(store) && Sweeping(st, store, previous, m) && Base(st) <= i < |store|
    ensures Sent(ViewOf(st), store[i]) <==> i >= m && Sent(View({}, map[], previous), store[i])
  {
    TracksAt(st.seen, store, m, i);
    ProcessedAt(st, store, previous, m, i);
  }

  function Max(a: nat, b: nat): nat {
    if a <= b then b else a
  }

  /** The facts of a piece of the store that a sweep sends are the changed facts behind `m`. */
  lemma {:induction false} PieceOfSweep(st: State, store: seq<Point>, previous: map<Id, Record>, m: nat, e: nat)
    requires DistinctIds(store) && Sweeping(st, store, previous, m) && Base(st) <= e <= |store|
    ensures Changed(store[..m], previous) + Facts(store[Base(st)..e], ViewOf(st)) == Changed(store[..Max(m, e)], previous)
  {
    if e <= m {
      NothingToSend(st, store, previous, m, e);
    } else {
      var b := Base(st);
      NothingToSend(st, store, previous, m, m);
      SendsAll(st, store, previous, m, e);
      SplitFacts(store, b, m, e, ViewOf(st));
      SplitFacts(store, 0, m, e, View({}, map[], previous));
      assert store[0..e] == store[..e] && store[0..m] == store[..m];
    }
  }

  lemma {:induction false} SplitFacts(store: seq<Point>, b: nat, m: nat, e: nat, v: View)
    requires b <= m <= e <= |store|
    ensures Facts(store[b..e], v) == Facts(store[b..m], v) + Facts(store[m..e], v)
  {
    assert store[b..e] == store[b..m] + store[m..e];
    FactsConcat(store[b..m], store[m..e], v);
  }

  lemma {:induction false} NothingToSend(st: State, store: seq<Point>, previous: map<Id, Record>, m: nat, e: nat)
    requires DistinctIds(store) && Sweeping(st, store, previous, m) && Base(st) <= e <= m
    ensures Facts(store[Base(st)..e], ViewOf(st)) == []
  {
    forall i | Base(st) <= i < e
      ensures !Sent(ViewOf(st), store[i])
    {
      SentAt(st, store, previous, m, i);
    }
    NoFacts(store[Base(st)..e], ViewOf(st));
  }

  lemma {:induction false} SendsAll(st: State, store: seq<Point>, previous: map<Id, Record>, m: nat, e: nat)
    requires DistinctIds(store) && Sweeping(st, store, previous, m) && m <= e <= |store|
    ensures Facts(store[m..e], ViewOf(st)) == Facts(store[m..e], View({}, map[], previous))
  {
    forall i | m <= i < e
      ensures Sent(ViewOf(st), store[i]) == Sent(View({}, map[], previous), store[i])
    {
      SentAt(st, store, previous, m, i);
    }
    FactsAgree(store[m..e], ViewOf(st), View({}, map[], previous));
  }

  lemma {:induction false} SeenAfterAt(st: State, points: seq<Point>, through: nat, i: nat)
    requires DistinctIds(points) && through <= |points| && i < |points|
    ensures var seen := SeenAfter(st, points, through);
            var id := points[i].id;
            if i < through && Tracked(ViewOf(st), points[i]) then id in seen && Some(seen[id]) == points[i].record
            else (id in seen <==> id in st.seen) && (id in seen ==> seen[id] == st.seen[id])
  {
    RecordsAre(points, ViewOf(st), i);
    forall j | 0 <= j < through && points[j].id == points[i].id
      ensures j == i
    {
      SameId(points, i, j);
    }
  }

  lemma {:induction false} SeenAfterOther(st: State, points: seq<Point>, through: nat, id: Id)
    requires through <= |points| && forall i :: 0 <= i < |points| ==> points[i].id != id
    ensures var seen := SeenAfter(st, points, through);
            (id in seen <==> id in st.seen) && (id in seen ==> seen[id] == st.seen[id])
  {
  }

  lemma {:induction false} SeenAt(st: State, store: seq<Point>, previous: map<Id, Record>, m: nat, pageEnd: nat, e: nat, i: nat)
    requires DistinctIds(store) && Sweeping(st, store, previous, m) && Base(st) <= e <= pageEnd <= |store| && i < |store|
    ensures var seen := SeenAfter(st, store[Base(st)..pageEnd], e - Base(st));
            && (store[i].id in seen <==> i < Max(m, e) && store[i].record.Some?)
            && (store[i].id in seen ==> Some(seen[store[i].id]) == store[i].record)
  {
    TracksAt(st.seen, store, m, i);
    if Base(st) <= i < pageEnd {
      SeenInPage(st, store, pageEnd, e, i);
      ProcessedAt(st, store, previous, m, i);
    } else {
      SeenOffPage(st, store, pageEnd, e, i);
    }
  }

  lemma {:induction false} SeenInPage(st: State, store: seq<Point>, pageEnd: nat, e: nat, i: nat)
    requires DistinctIds(store) && Base(st) <= e <= pageEnd <= |store| && Base(st) <= i < pageEnd
    ensures var seen := SeenAfter(st, store[Base(st)..pageEnd], e - Base(st));
            var id := store[i].id;
            if i < e && Tracked(ViewOf(st), store[i]) then id in seen && Some(seen[id]) == store[i].record
            else (id in seen <==> id in st.seen) && (id in seen ==> seen[id] == st.seen[id])
  {
    var page := store[Base(st)..pageEnd];
    PieceIsDistinct(store, Base(st), pageEnd);
    assert page[i - Base(st)] == store[i];
    SeenAfterAt(st, page, e - Base(st), i - Base(st));
  }

  lemma {:induction false} SeenOffPage(st: State, store: seq<Point>, pageEnd: nat, e: nat, i: nat)
    requires DistinctIds(store) && Base(st) <= e <= pageEnd <= |store| && i < |store| && !(Base(st) <= i < pageEnd)
    ensures var seen := SeenAfter(st, store[Base(st)..pageEnd], e - Base(st));
            var id := store[i].id;
            (id in seen <==> id in st.seen) && (id in seen ==> seen[id] == st.seen[id])
  {
    var page := store[Base(st)..pageEnd];
    forall j | 0 <= j < |page|
      ensures page[j].id != store[i].id
    {
      SameId(store, Base(st) + j, i);
    }
    SeenAfterOther(st, page, e - Base(st), store[i].id);
  }

  lemma {:induction false} SeenIsStored(st: State, store: seq<Point>, previous: map<Id, Record>, m: nat, pageEnd: nat, e: nat, id: Id)
    requires Sweeping(st, store, previous, m) && Base(st) <= e <= pageEnd <= |store|
    requires id in SeenAfter(st, store[Base(st)..pageEnd], e - Base(st))
    ensures exists i :: 0 <= i < |store| && store[i].id == id
  {
    var page := store[Base(st)..pageEnd];
    if forall i :: 0 <= i < |page| ==> page[i].id != id {
      SeenAfterOther(st, page, e - Base(st), id);
      assert Held(st.seen, store[..m], id);
      var i :| 0 <= i < m && store[..m][i].id == id;
      assert store[i].id == id;
    } else {
      var i :| 0 <= i < |page| && page[i].id == id;
      assert store[Base(st) + i].id == id;
    }
  }

  /** What is seen after a tick that has processed the page up to `e`. */
  lemma {:induction false} SeenTracks(st: State, store: seq<Point>, previous: map<Id, Record>, m: nat, pageEnd: nat, e: nat)
    requires DistinctIds(store) && Sweeping(st, store, previous, m) && Base(st) <= e <= pageEnd <= |store|
    ensures Tracks(SeenAfter(st, store[Base(st)..pageEnd], e - Base(st)), store[..Max(m, e)])
  {
    var seen := SeenAfter(st, store[Base(st)..pageEnd], e - Base(st));
    var to := store[..Max(m, e)];
    forall i: nat
      ensures TracksPoint(seen, to, i)
    {
      if i < |to| {
        SeenAt(st, store, previous, m, pageEnd, e, i);
      }
    }
    forall id: Id
      ensures Held(seen, to, id)
    {
      if id in seen {
        SeenIsStored(st, store, previous, m, pageEnd, e, id);
        var i :| 0 <= i < |store| && store[i].id == id;
        SeenAt(st, store, previous, m, pageEnd, e, i);
        assert to[i].id == id;
      }
    }
  }

  lemma {:induction false} NewIdsAre(points: seq<Point>, processed: set<Id>, p: nat)
    requires forall i :: 0 <= i < |points| ==> (points[i].id in processed <==> i < p)
    ensures |NewIds(points, processed)| == if |points| <= p then 0 else |points| - p
    ensures forall i :: 0 <= i < |NewIds(points, processed)| ==> NewIds(points, processed)[i] == points[p + i].id
  {
    if points != [] {
      NewIdsAre(points[..|points| - 1], processed, p);
    }
  }

  /** The page that a sweep looks at is a piece of the store, and knows whether it is the last one. */
  ghost predicate PageAt(page: Page, b: nat, store: seq<Point>) {
    && b + |page.points| <= |store| && page.points == store[b..b + |page.points|]
    && (if page.next.None? then b + |page.points| == |store| else page.next == Some(b + |page.points|) && |page.points| > 0)
  }

  lemma {:induction false} ScrollIsPiece(store: seq<Point>, offset: Option<nat>, limit: nat)
    requires limit > 0 && (offset.Some? ==> offset.value <= |store|)
    ensures PageAt(Scroll(store, offset, limit), if offset.None? then 0 else offset.value, store)
  {
  }

  lemma {:induction false} StartOfPage(page: Page, b: nat, store: seq<Point>, through: nat)
    requires PageAt(page, b, store) && through <= |page.points|
    ensures page.points[..through] == store[b..b + through]
  {
  }

  /** What is seen after a tick, in terms of the page. */
  lemma {:induction false} SeenTracksPage(st: State, store: seq<Point>, previous: map<Id, Record>, m: nat, page: Page, through: nat)
    requires DistinctIds(store) && Sweeping(st, store, previous, m) && PageAt(page, Base(st), store) && through <= |page.points|
    ensures Tracks(SeenAfter(st, page.points, through), store[..Max(m, Base(st) + through)])
  {
    var e := Base(st) + |page.points|;
    assert page.points == store[Base(st)..e] && through == Base(st) + through - Base(st);
    SeenTracks(st, store, previous, m, e, Base(st) + through);
  }

  /** The processed points are always a prefix of the page. */
  lemma {:induction false} ProcessedAfter(st: State, store: seq<Point>, previous: map<Id, Record>, m: nat, points: seq<Point>, through: nat)
    requires DistinctIds(store) && Sweeping(st, store, previous, m)
    requires Base(st) + |points| <= |store| && points == store[Base(st)..Base(st) + |points|]
    requires |st.processed| <= through <= |points|
    ensures var ids := st.processed + NewIds(points[..through], ViewOf(st).processed);
            |ids| == through && forall i: nat :: ProcessedPoint(ids, store, Base(st), i)
  {
    var b, p := Base(st), |st.processed|;
    var done := points[..through];
    forall i | 0 <= i < |done|
      ensures done[i].id in ViewOf(st).processed <==> i < p
    {
      ProcessedAt(st, store, previous, m, b + i);
      assert done[i] == store[b + i];
    }
    NewIdsAre(done, ViewOf(st).processed, p);
    var added := NewIds(done, ViewOf(st).processed);
    forall i: nat
      ensures ProcessedPoint(st.processed + added, store, b, i)
    {
      if i < p {
        assert ProcessedPoint(st.processed, store, b, i);
      } else if i < p + |added| {
        assert added[i - p] == done[p + (i - p)].id;
        assert done[i] == store[b + i];
      }
    }
  }

  /** A tick in the middle of a page. */
  lemma {:induction false} PartOfPage(st: State, store: seq<Point>, previous: map<Id, Record>, m: nat, page: Page, through: nat)
    requires DistinctIds(store) && Sweeping(st, store, previous, m) && PageAt(page, Base(st), store)
    requires through < |page.points| && Base(st) + through > m
    ensures var n := Advanced(st, page, through);
            Sweeping(n, store, previous, Base(st) + through) && Base(n) == Base(st) && |n.processed| > |st.processed|
  {
    ProcessedAfter(st, store, previous, m, page.points, through);
    SeenTracksPage(st, store, previous, m, page, through);
  }

  /** A tick that finishes a page. */
  lemma {:induction false} EndOfPage(st: State, store: seq<Point>, previous: map<Id, Record>, m: nat, page: Page)
    requires DistinctIds(store) && Sweeping(st, store, previous, m) && PageAt(page, Base(st), store)
    ensures var n := Advanced(st, page, |page.points|);
            if n.inProgress then Sweeping(n, store, previous, Max(m, Base(st) + |page.points|)) && Base(n) > Base(st)
            else Tracks(n.previous, store) && n.deleted == (set id | id in previous && id !in n.previous) && IdleOk(n)
                 && Base(st) + |page.points| == |store|
  {
    SeenTracksPage(st, store, previous, m, page, |page.points|);
    assert store[..|store|] == store;
  }

  ghost predicate IdleOk(st: State) {
    !st.inProgress && !st.pending && st.processed == []
  }

  // ---------------------------------------------------------------- completion

  function Flat(proposals: seq<seq<Fact>>): seq<Fact> {
    if proposals == [] then [] else Flat(proposals[..|proposals| - 1]) + proposals[|proposals| - 1]
  }

  lemma {:induction false} FlatMore(proposals: seq<seq<Fact>>, next: seq<Fact>)
    ensures Flat(proposals + [next]) == Flat(proposals) + next
  {
    assert (proposals + [next])[..|proposals|] == proposals;
  }

  function EligibleIds(points: seq<Point>): set<Id> {
    set i | 0 <= i < |points| && points[i].record.Some? :: points[i].id
  }

  lemma {:induction false} TracksKeys(tracked: map<Id, Record>, points: seq<Point>)
    requires Tracks(tracked, points)
    ensures tracked.Keys == EligibleIds(points) && |tracked| == |EligibleIds(points)|
  {
    forall id: Id
      ensures id in tracked.Keys <==> id in EligibleIds(points)
    {
      assert Held(tracked, points, id);
      if id in EligibleIds(points) {
        var i: nat :| i < |points| && points[i].record.Some? && points[i].id == id;
        assert TracksPoint(tracked, points, i);
      }
    }
  }

  lemma {:induction false} SubsetSize<T>(a: set<T>, b: set<T>)
    requires a <= b
    ensures |a| <= |b|
  {
    assert b == a + (b - a);
  }

  lemma {:induction false} FewerEligible(store: seq<Point>, m: nat)
    requires m <= |store|
    ensures |EligibleIds(store[..m])| <= |EligibleIds(store)|
  {
    forall i | 0 <= i < m
      ensures store[..m][i] == store[i]
    {
    }
    SubsetSize(EligibleIds(store[..m]), EligibleIds(store));
  }

  predicate Able(c: Choice) {
    c.limit > 0 && c.fits(1)
  }

  /** How far a tick goes that processes the first points of a page: behind `m` if it sends
      something, and it sends the changed facts that it goes through. */
  lemma {:induction false} TickGoesThrough(st: State, store: seq<Point>, previous: map<Id, Record>, m: nat, page: Page, through: nat,
                                           sent: seq<Fact>)
    requires DistinctIds(store) && Sweeping(st, store, previous, m) && PageAt(page, Base(st), store)
    requires through <= |page.points| && sent == Facts(page.points[..through], ViewOf(st))
    ensures sent != [] ==> Base(st) + through > m
    ensures Changed(store[..m], previous) + sent == Changed(store[..Max(m, Base(st) + through)], previous)
  {
    StartOfPage(page, Base(st), store, through);
    PieceOfSweep(st, store, previous, m, Base(st) + through);
    if sent != [] {
      SentIsNew(st, store, previous, m, Base(st) + through);
    }
  }

  lemma {:induction false} SentIsNew(st: State, store: seq<Point>, previous: map<Id, Record>, m: nat, e: nat)
    requires DistinctIds(store) && Sweeping(st, store, previous, m) && Base(st) <= e <= |store|
    requires Facts(store[Base(st)..e], ViewOf(st)) != []
    ensures e > m
  {
    forall i | Base(st) <= i < e && i < m
      ensures !Sent(ViewOf(st), store[i])
    {
      SentAt(st, store, previous, m, i);
    }
    if e <= m {
      NoFacts(store[Base(st)..e], ViewOf(st));
    }
  }

  /** The next stage of a sweep after a tick: it has moved on, or it is complete. */
  ghost predicate MovedOn(st: State, n: State, store: seq<Point>, previous: map<Id, Record>, m: nat) {
    if n.inProgress then
      && Sweeping(n, store, previous, m) && n.binding == st.binding
      && (Base(n) > Base(st) || (Base(n) == Base(st) && |n.processed| > |st.processed|))
    else m == |store| && Complete(n, store, previous) && n.binding == st.binding
  }

  /** After a sweep: everything eligible is tracked as it is, and what has gone is reported. */
  ghost predicate Complete(st: State, store: seq<Point>, previous: map<Id, Record>) {
    IdleOk(st) && Tracks(st.previous, store) && st.deleted == set id | id in previous && id !in EligibleIds(store)
  }

  lemma {:induction false} AdvancedMovesOn(st: State, store: seq<Point>, previous: map<Id, Record>, m: nat, page: Page, through: nat)
    requires DistinctIds(store) && Sweeping(st, store, previous, m) && PageAt(page, Base(st), store)
    requires through <= |page.points| && (through < |page.points| ==> Base(st) + through > m)
    ensures MovedOn(st, Advanced(st, page, through), store, previous, Max(m, Base(st) + through))
  {
    if through < |page.points| {
      PartOfPage(st, store, previous, m, page, through);
    } else {
      EndOfPage(st, store, previous, m, page);
      var n := Advanced(st, page, through);
      if !n.inProgress {
        TracksKeys(n.previous, store);
        assert forall id :: id in n.previous <==> id in n.previous.Keys;
      }
    }
  }

  /** What has been sent since the sweep began: the changed facts among the first `m` points, each of
      them once. */
  ghost predicate SentUpTo(w: World, before: seq<Fact>, store: seq<Point>, previous: map<Id, Record>, m: nat)
    requires m <= |store|
  {
    Flat(w.proposals) == before + Changed(store[..m], previous)
  }

  /** The result of one tick that nothing disturbs. It moves on, unless it would have to track too
      many facts: then the state stays as it is. */
  ghost predicate TickResult(w: World, st: State, n: World, store: seq<Point>, previous: map<Id, Record>, m: nat, next: nat)
  {
    && m <= next <= |store|
    && if |EligibleIds(store[..next])| > MAX_TRACKED_FACTS then n.state == w.state
       else MovedOn(st, n.state, store, previous, next)
  }

  lemma {:induction false} EffectMovesOn(w: World, st: State, store: seq<Point>, previous: map<Id, Record>, m: nat, page: Page,
                                         sent: seq<Fact>, through: nat) returns (next: nat)
    requires DistinctIds(store) && Sweeping(st, store, previous, m) && PageAt(page, Base(st), store)
    requires through <= |page.points| && (through < |page.points| ==> Base(st) + through > m)
    ensures next == Max(m, Base(st) + through)
    ensures TickResult(w, st, Effect(w, st, page, sent, through, true), store, previous, m, next)
  {
    next := Max(m, Base(st) + through);
    SizeOfSeen(st, store, previous, m, page, through);
    AdvancedMovesOn(st, store, previous, m, page, through);
  }

  lemma {:induction false} SizeOfSeen(st: State, store: seq<Point>, previous: map<Id, Record>, m: nat, page: Page, through: nat)
    requires DistinctIds(store) && Sweeping(st, store, previous, m) && PageAt(page, Base(st), store) && through <= |page.points|
    ensures |SeenAfter(st, page.points, through)| == |EligibleIds(store[..Max(m, Base(st) + through)])|
  {
    SeenTracksPage(st, store, previous, m, page, through);
    TracksKeys(SeenAfter(st, page.points, through), store[..Max(m, Base(st) + through)]);
  }

  lemma {:induction false} EffectSendsUpTo(w: World, st: State, store: seq<Point>, previous: map<Id, Record>, m: nat, page: Page,
                                           sent: seq<Fact>, through: nat, next: nat, before: seq<Fact>)
    requires through <= |page.points| && m <= |store| && next <= |store|
    requires Changed(store[..m], previous) + sent == Changed(store[..next], previous)
    ensures SentUpTo(w, before, store, previous, m) ==>
              SentUpTo(Effect(w, st, page, sent, through, true), before, store, previous, next)
  {
    FlatMore(w.proposals, sent);
    assert before + Changed(store[..m], previous) + sent == before + (Changed(store[..m], previous) + sent);
  }

  lemma {:induction false} GoodTick(w: World, store: seq<Point>, binding: string, previous: map<Id, Record>, m: nat, c: Choice,
                                    before: seq<Fact>) returns (next: nat)
    requires DistinctIds(store) && Sweeping(Found(w, binding), store, previous, m) && Able(c) && c.outcome.Completes?
    ensures TickResult(w, Found(w, binding), Tick(w, store, binding, c), store, previous, m, next)
    ensures SentUpTo(w, before, store, previous, m) ==> SentUpTo(Tick(w, store, binding, c), before, store, previous, next)
  {
    var st := Found(w, binding);
    ScrollIsPiece(store, PageOffset(st), c.limit);
    ScrollIsDistinct(store, PageOffset(st), c.limit);
    var page := Scroll(store, PageOffset(st), c.limit);
    var facts := Facts(page.points, ViewOf(st));
    var k := LargestFit(|facts|, c.fits);
    var through := ThroughSplits(page.points, facts, ViewOf(st), k);
    TickGoesThrough(st, store, previous, m, page, through, facts[..k]);
    next := EffectMovesOn(w, st, store, previous, m, page, facts[..k], through);
    EffectSendsUpTo(w, st, store, previous, m, page, facts[..k], through, next, before);
  }

  function Ticks(w: World, store: seq<Point>, binding: string, choices: nat -> Choice, n: nat): World {
    if n == 0 then w else Tick(Ticks(w, store, binding, choices, n - 1), store, binding, choices(n - 1))
  }

  ghost predicate NeverDisturbed(choices: nat -> Choice) {
    forall i: nat :: Able(choices(i)) && choices(i).outcome.Completes?
  }

  /** The stages of a sweep: after some ticks the changed facts among the first `m` points are sent. */
  ghost predicate Stage(w: World, binding: string, store: seq<Point>, previous: map<Id, Record>, before: seq<Fact>, m: nat) {
    Sweeping(Found(w, binding), store, previous, m) && SentUpTo(w, before, store, previous, m)
  }

  ghost predicate Ended(w: World, store: seq<Point>, previous: map<Id, Record>, before: seq<Fact>) {
    Complete(w.state, store, previous) && SentUpTo(w, before, store, previous, |store|)
  }

  /** A sweep that is not at its end comes closer to it with every tick: it goes to a later page, or it
      processes more of the page. */
  ghost predicate Closer(now: State, after: State) {
    Base(after) > Base(now) || (Base(after) == Base(now) && |after.processed| > |now.processed|)
  }

  lemma {:induction false} StageMoves(w: World, store: seq<Point>, binding: string, c: Choice, previous: map<Id, Record>, m: nat,
                                      before: seq<Fact>) returns (next: nat)
    requires DistinctIds(store) && Able(c) && c.outcome.Completes? && |EligibleIds(store)| <= MAX_TRACKED_FACTS
    requires Stage(w, binding, store, previous, before, m)
    ensures var after := Tick(w, store, binding, c);
            if after.state.inProgress
            then Stage(after, binding, store, previous, before, next) && Closer(Found(w, binding), Found(after, binding))
            else Ended(after, store, previous, before)
  {
    next := GoodTick(w, store, binding, previous, m, c, before);
    FewerEligible(store, next);
    var after := Tick(w, store, binding, c);
    if after.state.inProgress {
      StillFound(after, Found(w, binding), binding, store, previous, next);
    }
  }

  lemma {:induction false} StageBounds(w: World, binding: string, store: seq<Point>, previous: map<Id, Record>, before: seq<Fact>, m: nat)
    requires Stage(w, binding, store, previous, before, m)
    ensures Base(Found(w, binding)) + |Found(w, binding).processed| <= |store|
  {
  }

  lemma {:induction false} StillFound(w: World, st: State, binding: string, store: seq<Point>, previous: map<Id, Record>, m: nat)
    requires st.binding == binding && MovedOn(st, w.state, store, previous, m) && w.state.inProgress
    ensures Found(w, binding) == w.state
  {
  }

  /** From any stage a sweep comes to its end, when the tracked facts are not too many. */
  lemma {:induction false} SweepGoesOn(w: World, store: seq<Point>, binding: string, choices: nat -> Choice, i: nat, now: World,
                                       previous: map<Id, Record>, m: nat, before: seq<Fact>) returns (n: nat)
    requires DistinctIds(store) && NeverDisturbed(choices) && |EligibleIds(store)| <= MAX_TRACKED_FACTS
    requires now == Ticks(w, store, binding, choices, i) && Stage(now, binding, store, previous, before, m)
    ensures Ended(Ticks(w, store, binding, choices, n), store, previous, before)
    decreases |store| - Base(Found(now, binding)), |store| - |Found(now, binding).processed|
  {
    assert Able(choices(i));
    var next := StageMoves(now, store, binding, choices(i), previous, m, before);
    var after := Tick(now, store, binding, choices(i));
    assert after == Ticks(w, store, binding, choices, i + 1);
    if after.state.inProgress {
      StageBounds(after, binding, store, previous, before, next);
      n := SweepGoesOn(w, store, binding, choices, i + 1, after, previous, next, before);
    } else {
      n := i + 1;
    }
  }

  /** A full sweep over a store that does not change, however it is cut into pages and requests: it
      ends, tracks exactly the eligible facts, reports exactly the facts that have gone, and has sent
      each fact that differs from the previous sweep once and no other. */
  lemma {:induction false} SweepIsExact(w: World, store: seq<Point>, choices: nat -> Choice) returns (n: nat)
    requires DistinctIds(store) && NeverDisturbed(choices) && IdleOk(w.state) && |EligibleIds(store)| <= MAX_TRACKED_FACTS
    ensures Complete(Ticks(w, store, w.state.binding, choices, n).state, store, w.state.previous)
    ensures Flat(Ticks(w, store, w.state.binding, choices, n).proposals) == Flat(w.proposals) + Changed(store, w.state.previous)
  {
    assert store[..0] == [] && store[..|store|] == store;
    assert Ticks(w, store, w.state.binding, choices, 0) == w;
    n := SweepGoesOn(w, store, w.state.binding, choices, 0, w, w.state.previous, 0, Flat(w.proposals));
  }

  /** A changed binding forgets everything: whatever state a tick finds, the sweep that it starts treats every
      eligible fact as new and reports nothing as gone. */
  lemma {:induction false} SweepStartsOver(w: World, store: seq<Point>, binding: string, choices: nat -> Choice) returns (n: nat)
    requires DistinctIds(store) && NeverDisturbed(choices) && binding != w.state.binding && |EligibleIds(store)| <= MAX_TRACKED_FACTS
    ensures Complete(Ticks(w, store, binding, choices, n).state, store, map[])
    ensures Ticks(w, store, binding, choices, n).state.deleted == {}
    ensures Flat(Ticks(w, store, binding, choices, n).proposals) == Flat(w.proposals) + Changed(store, map[])
  {
    assert store[..0] == [] && store[..|store|] == store;
    assert Ticks(w, store, binding, choices, 0) == w;
    n := SweepGoesOn(w, store, binding, choices, 0, w, map[], 0, Flat(w.proposals));
  }

  /** With too many facts, a sweep stands still or goes on, but never ends. */
  ghost predicate Endless(w: World, first: World, store: seq<Point>, m: nat) {
    && w.state.previous == first.state.previous
    && (w.state == first.state || w.state.inProgress)
    && Sweeping(Found(w, first.state.binding), store, first.state.previous, m)
  }

  lemma {:induction false} EndlessStarts(w: World, store: seq<Point>)
    requires IdleOk(w.state)
    ensures Endless(w, w, store, 0)
  {
    assert store[..0] == [];
  }

  lemma {:induction false} EndlessGoesOn(w: World, first: World, store: seq<Point>, c: Choice, m: nat) returns (next: nat)
    requires DistinctIds(store) && Able(c) && c.outcome.Completes? && |EligibleIds(store)| > MAX_TRACKED_FACTS
    requires Endless(w, first, store, m)
    ensures Endless(Tick(w, store, first.state.binding, c), first, store, next)
  {
    next := GoodTick(w, store, first.state.binding, first.state.previous, m, c, []);
    assert store[..|store|] == store;
    var after := Tick(w, store, first.state.binding, c);
    if |EligibleIds(store[..next])| > MAX_TRACKED_FACTS {
      next := m;
    } else {
      StillFound(after, Found(w, first.state.binding), first.state.binding, store, first.state.previous, next);
    }
  }

  lemma {:induction false} EndlessTicks(w: World, store: seq<Point>, choices: nat -> Choice, n: nat, m: nat) returns (next: nat)
    requires DistinctIds(store) && NeverDisturbed(choices) && |EligibleIds(store)| > MAX_TRACKED_FACTS
    requires Endless(Ticks(w, store, w.state.binding, choices, n), w, store, m)
    ensures Endless(Ticks(w, store, w.state.binding, choices, n + 1), w, store, next)
  {
    var now, c := Ticks(w, store, w.state.binding, choices, n), choices(n);
    assert Able(choices(n));
    next := EndlessGoesOn(now, w, store, c, m);
    assert Ticks(w, store, w.state.binding, choices, n + 1) == Tick(now, store, w.state.binding, c);
  }

  /** With more eligible facts than can be tracked, no sweep ever ends: the previous sweep stays what
      it was. */
  lemma {:induction false} TooManyFactsNeverEnd(w: World, store: seq<Point>, choices: nat -> Choice, n: nat) returns (m: nat)
    requires DistinctIds(store) && NeverDisturbed(choices) && IdleOk(w.state) && |EligibleIds(store)| > MAX_TRACKED_FACTS
    ensures Endless(Ticks(w, store, w.state.binding, choices, n), w, store, m)
  {
    m := 0;
    EndlessStarts(w, store);
    assert Ticks(w, store, w.state.binding, choices, 0) == w;
    for k := 0 to n
      invariant Endless(Ticks(w, store, w.state.binding, choices, k), w, store, m)
    {
      m := EndlessTicks(w, store, choices, k, m);
    }
  }
}
