/** The maintenance worker as it runs: a tick loads the state file, walks over one page, and saves. */
module FactSweepWorker {
  import opened Options
  import opened FactSweep
  import opened FactSweepRuns

  class Worker {
    var saved: State
    var proposals: seq<seq<Fact>>

    constructor ()
      ensures Files() == World(NEW, [])
    {
      saved, proposals := NEW, [];
    }

    function Files(): World
      reads this
    {
      World(saved, proposals)
    }

    /** The candidates of a page, and the records of all points that can be tracked. */
    method MakeInput(points: seq<Point>, st: State) returns (facts: seq<Fact>, records: map<Id, Record>)
      ensures facts == Facts(points, ViewOf(st)) && records == Records(points, ViewOf(st))
    {
      facts, records := [], map[];
      for i := 0 to |points|
        invariant facts == Facts(points[..i], ViewOf(st)) && records == Records(points[..i], ViewOf(st))
      {
        var p := points[i];
        assert points[..i + 1][..i] == points[..i];
        if p.id in st.processed || p.record.None? {
          continue;
        }
        var known, found := p.record.value, false;
        if p.id in st.previous {
          known, found := st.previous[p.id], true;
        }
        if p.id in st.seen {
          known, found := st.seen[p.id], true;
        }
        records := records[p.id := p.record.value];
        if found && known == p.record.value {
          continue;
        }
        facts := facts + [Fact(p.id, p.record.value)];
      }
      assert points[..|points|] == points;
    }

    /** Drops facts from the end until the request fits. */
    method Fit(facts: seq<Fact>, fits: nat -> bool) returns (k: nat)
      ensures k == LargestFit(|facts|, fits)
    {
      k := |facts|;
      while k > 0 && !fits(k)
        invariant k <= |facts| && LargestFit(k, fits) == LargestFit(|facts|, fits)
      {
        k := k - 1;
      }
    }

    /** How many points of the page are done when the first `k` facts are sent. */
    method FindThrough(points: seq<Point>, facts: seq<Fact>, k: nat) returns (through: nat)
      requires k <= |facts| && Through(points, facts, k) <= |points|
      ensures through == Through(points, facts, k)
    {
      if k == |facts| || k == 0 {
        return |points|;
      }
      var i := 0;
      while i < |points| && points[i].id != facts[k - 1].id
        invariant i <= |points| && i + IndexOf(points[i..], facts[k - 1].id) == IndexOf(points, facts[k - 1].id)
      {
        assert points[i..][1..] == points[i + 1..];
        i := i + 1;
      }
      through := i + 1;
    }

    /** The ids of the processed points, and those of them that are new. */
    method Processed(points: seq<Point>, st: State, through: nat) returns (all: set<Id>, added: seq<Id>)
      requires through <= |points|
      ensures forall id :: id in all <==> exists i :: 0 <= i < through && points[i].id == id
      ensures added == NewIds(points[..through], ViewOf(st).processed)
    {
      all, added := {}, [];
      for i := 0 to through
        invariant forall id :: id in all <==> exists j :: 0 <= j < i && points[j].id == id
        invariant added == NewIds(points[..i], ViewOf(st).processed)
      {
        assert points[..i + 1][..i] == points[..i];
        all := all + {points[i].id};
        if points[i].id !in st.processed {
          added := added + [points[i].id];
        }
      }
    }

    /** Adds the records of processed points to what the sweep has seen. */
    method AddSeen(seen: map<Id, Record>, records: map<Id, Record>, done: set<Id>) returns (result: map<Id, Record>)
      ensures forall id :: AddedAt(seen, records, done, map[], result, id)
    {
      result := seen;
      var left := records;
      while left != map[]
        invariant forall id :: id in left ==> id in records && left[id] == records[id]
        invariant forall id :: AddedAt(seen, records, done, left, result, id)
        decreases |left|
      {
        var id :| id in left;
        ghost var before, todo := result, left;
        if id in done {
          result := result[id := left[id]];
        }
        assert |left| == |left - {id}| + 1 by {
          assert (left - {id})[id := left[id]] == left;
        }
        left := left - {id};
        forall other
          ensures AddedAt(seen, records, done, left, result, other)
        {
          assert AddedAt(seen, records, done, todo, before, other);
        }
      }
    }

    /** One tick. */
    method RunOnce(store: seq<Point>, binding: string, c: Choice)
      requires DistinctIds(store)
      modifies this
      ensures Files() == Tick(old(Files()), store, binding, c)
    {
      var st := saved;
      if st.binding != binding {
        st := st.(binding := binding, inProgress := false, offset := None, pending := false, pageStart := None, processed := [],
                  seen := map[], previous := map[], deleted := {});
      }
      if !st.inProgress {
        st := st.(inProgress := true, offset := None, seen := map[]);
      }
      assert st == Found(Files(), binding);
      var pageOffset := if st.pending then st.pageStart else st.offset;
      if c.outcome.FailsEarly? {
        return;
      }
      var page := Scroll(store, pageOffset, c.limit);
      var facts, records := MakeInput(page.points, st);
      var k := Fit(facts, c.fits);
      if k == 0 && facts != [] {
        return;
      }
      ScrollIsDistinct(store, pageOffset, c.limit);
      Send(st, page, facts, records, k, c.outcome.Completes?);
    }

    /** Stores the proposal of a tick and, unless the tick fails then, its new state. */
    method Send(st: State, page: Page, facts: seq<Fact>, records: map<Id, Record>, k: nat, saves: bool)
      requires DistinctIds(page.points) && facts == Facts(page.points, ViewOf(st)) && records == Records(page.points, ViewOf(st))
      requires k <= |facts| && (k == 0 ==> facts == [])
      modifies this
      ensures Files() == Effect(old(Files()), st, page, facts[..k], Clip(Through(page.points, facts, k), |page.points|), saves)
    {
      ThroughFits(page.points, ViewOf(st), facts, k);
      if k > 0 {
        proposals := proposals + [facts[..k]];
      }
      if saves {
        Advance(st, page, facts, records, k);
      }
    }

    /** The end of a tick: the processed points go into the sweep, the cursor moves, and the state is
        saved, unless it would track too many facts. */
    method Advance(found: State, page: Page, facts: seq<Fact>, records: map<Id, Record>, k: nat)
      requires k <= |facts| && Through(page.points, facts, k) <= |page.points| && records == Records(page.points, ViewOf(found))
      modifies this`saved
      ensures var through := Through(page.points, facts, k);
              saved == if |SeenAfter(found, page.points, through)| > MAX_TRACKED_FACTS then old(saved)
                       else Advanced(found, page, through)
    {
      var st := found;
      var through := FindThrough(page.points, facts, k);
      var done, added := Processed(page.points, st, through);
      var seen := AddSeen(st.seen, records, done);
      AddedIsSeen(st, page.points, through, done, seen);
      if |seen| > MAX_TRACKED_FACTS {
        return;
      }
      if through < |page.points| {
        st := st.(seen := seen, pending := true, pageStart := PageOffset(found), offset := PageOffset(found),
                  processed := st.processed + added);
      } else {
        st := st.(seen := seen, pending := false, pageStart := None, processed := [], offset := page.next);
      }
      if !st.pending && page.next.None? {
        var deleted := set id | id in st.previous && id !in seen;
        st := st.(deleted := deleted, previous := seen, seen := map[], inProgress := false, offset := None);
      }
      saved := st;
    }
  }

  /** The records that are not left are added at an id. */
  predicate AddedAt(seen: map<Id, Record>, records: map<Id, Record>, done: set<Id>, left: map<Id, Record>, result: map<Id, Record>,
                    id: Id) {
    if id in records && id !in left && id in done then id in result && result[id] == records[id]
    else (id in result <==> id in seen) && (id in seen ==> result[id] == seen[id])
  }

  lemma {:induction false} AddedIsSeen(st: State, points: seq<Point>, through: nat, done: set<Id>, result: map<Id, Record>)
    requires through <= |points| && forall id :: id in done <==> exists i :: 0 <= i < through && points[i].id == id
    requires forall id :: AddedAt(st.seen, Records(points, ViewOf(st)), done, map[], result, id)
    ensures result == SeenAfter(st, points, through)
  {
    var seen := SeenAfter(st, points, through);
    var records := Records(points, ViewOf(st));
    forall id: Id
      ensures id in result <==> id in seen
      ensures id in result ==> result[id] == seen[id]
    {
      assert AddedAt(st.seen, records, done, map[], result, id);
    }
  }

  lemma {:induction false} ThroughFits(points: seq<Point>, v: View, facts: seq<Fact>, k: nat)
    requires DistinctIds(points) && facts == Facts(points, v) && k <= |facts| && (k == 0 ==> facts == [])
    ensures Through(points, facts, k) <= |points|
  {
    var through := ThroughSplits(points, facts, v, k);
  }
}
