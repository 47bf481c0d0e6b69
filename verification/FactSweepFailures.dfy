/** The fact sweep over a stable store when ticks fail: it still ends, and nothing is missed. */
module FactSweepFailures {
  import opened FactSweep
  import opened FactSweepRuns

  /** Every fact of the list is in a proposal. */
  ghost predicate Covers(proposals: seq<seq<Fact>>, facts: seq<Fact>) {
    forall f :: f in facts ==> Proposed(proposals, f)
  }

  /** The proposals hold no other facts. */
  ghost predicate HoldsOnly(proposals: seq<seq<Fact>>, facts: seq<Fact>) {
    forall f :: Proposed(proposals, f) ==> f in facts
  }

  /** A sweep under way that began with the proposals `earlier`: those stored since then hold changed facts
      only, and all of them among the first `m` points. */
  ghost predicate Underway(w: World, binding: string, store: seq<Point>, previous: map<Id, Record>, earlier: seq<seq<Fact>>, m: nat) {
    && Sweeping(Found(w, binding), store, previous, m) && earlier <= w.proposals
    && Covers(w.proposals[|earlier|..], Changed(store[..m], previous)) && HoldsOnly(w.proposals[|earlier|..], Changed(store, previous))
  }

  /** A sweep that has ended with everything eligible tracked and exactly the changed facts proposed. */
  ghost predicate EndedWith(w: World, store: seq<Point>, previous: map<Id, Record>, earlier: seq<seq<Fact>>) {
    && Complete(w.state, store, previous) && earlier <= w.proposals
    && Covers(w.proposals[|earlier|..], Changed(store, previous)) && HoldsOnly(w.proposals[|earlier|..], Changed(store, previous))
  }

  lemma {:induction false} ProposedMore(proposals: seq<seq<Fact>>, next: seq<Fact>, f: Fact)
    ensures Proposed(proposals + [next], f) <==> Proposed(proposals, f) || f in next
  {
    var more := proposals + [next];
    if Proposed(proposals, f) {
      var i :| 0 <= i < |proposals| && f in proposals[i];
      assert f in more[i];
    }
    if f in next {
      assert f in more[|proposals|];
    }
  }

  /** The changed facts among the first points are changed facts. */
  lemma {:induction false} ChangedPrefix(store: seq<Point>, previous: map<Id, Record>, m: nat, f: Fact)
    requires m <= |store| && f in Changed(store[..m], previous)
    ensures f in Changed(store, previous)
  {
    assert store == store[..m] + store[m..];
    FactsConcat(store[..m], store[m..], View({}, map[], previous));
  }

  /** One more proposal of facts that lie between `m` and `next`. */
  lemma {:induction false} OneMoreProposal(proposals: seq<seq<Fact>>, sent: seq<Fact>, store: seq<Point>, previous: map<Id, Record>,
                                           m: nat, next: nat)
    requires m <= next <= |store| && Changed(store[..m], previous) + sent == Changed(store[..next], previous)
    requires Covers(proposals, Changed(store[..m], previous)) && HoldsOnly(proposals, Changed(store, previous))
    ensures var more := if sent != [] then proposals + [sent] else proposals;
            Covers(more, Changed(store[..next], previous)) && HoldsOnly(more, Changed(store, previous))
  {
    forall f
      ensures Proposed(proposals + [sent], f) <==> Proposed(proposals, f) || f in sent
    {
      ProposedMore(proposals, sent, f);
    }
    forall f | f in sent
      ensures f in Changed(store, previous)
    {
      assert f in Changed(store[..m], previous) + sent;
      ChangedPrefix(store, previous, next, f);
    }
  }

  lemma {:induction false} CoversFewer(proposals: seq<seq<Fact>>, store: seq<Point>, previous: map<Id, Record>, m: nat, next: nat)
    requires m <= next <= |store| && Covers(proposals, Changed(store[..next], previous))
    ensures Covers(proposals, Changed(store[..m], previous))
  {
    var first := store[..next];
    assert first[..m] == store[..m];
    forall f | f in Changed(store[..m], previous)
      ensures Proposed(proposals, f)
    {
      ChangedPrefix(first, previous, m, f);
    }
  }

  function Stored(proposals: seq<seq<Fact>>, sent: seq<Fact>): seq<seq<Fact>> {
    if sent != [] then proposals + [sent] else proposals
  }

  /** The facts that a tick sends, however it ends, and how far they reach. */
  lemma {:induction false} WhatIsSent(w: World, store: seq<Point>, binding: string, previous: map<Id, Record>, m: nat, c: Choice)
    returns (sent: seq<Fact>, next: nat)
    requires DistinctIds(store) && Sweeping(Found(w, binding), store, previous, m) && c.limit > 0
    requires |EligibleIds(store)| <= MAX_TRACKED_FACTS
    ensures m <= next <= |store| && Changed(store[..m], previous) + sent == Changed(store[..next], previous)
    ensures var n := Tick(w, store, binding, c);
            || n == w
            || n == w.(proposals := Stored(w.proposals, sent))
            || (n.proposals == Stored(w.proposals, sent) && MovedOn(Found(w, binding), n.state, store, previous, next))
    ensures Able(c) && c.outcome.Completes? ==>
              var n := Tick(w, store, binding, c);
              n.proposals == Stored(w.proposals, sent) && MovedOn(Found(w, binding), n.state, store, previous, next)
  {
    var st := Found(w, binding);
    ScrollIsPiece(store, PageOffset(st), c.limit);
    ScrollIsDistinct(store, PageOffset(st), c.limit);
    var page := Scroll(store, PageOffset(st), c.limit);
    var facts := Facts(page.points, ViewOf(st));
    var k := LargestFit(|facts|, c.fits);
    if k == 0 && facts != [] {
      sent, next := [], m;
    } else {
      var through := ThroughSplits(page.points, facts, ViewOf(st), k);
      TickGoesThrough(st, store, previous, m, page, through, facts[..k]);
      sent := facts[..k];
      next := EffectMovesOn(w, st, store, previous, m, page, sent, through);
      FewerEligible(store, next);
    }
  }

  /** A tick that saves its state. */
  lemma {:induction false} SavedTick(w: World, after: World, store: seq<Point>, binding: string, previous: map<Id, Record>,
                                     earlier: seq<seq<Fact>>, m: nat, sent: seq<Fact>, next: nat)
    requires Underway(w, binding, store, previous, earlier, m)
    requires m <= next <= |store| && Changed(store[..m], previous) + sent == Changed(store[..next], previous)
    requires after.proposals == Stored(w.proposals, sent) && MovedOn(Found(w, binding), after.state, store, previous, next)
    ensures EndedWith(after, store, previous, earlier)
            || (Underway(after, binding, store, previous, earlier, next) && Closer(Found(w, binding), Found(after, binding)))
  {
    var since := w.proposals[|earlier|..];
    OneMoreProposal(since, sent, store, previous, m, next);
    assert Stored(w.proposals, sent)[|earlier|..] == Stored(since, sent);
    assert store[..|store|] == store;
    if after.state.inProgress {
      StillFound(after, Found(w, binding), binding, store, previous, next);
    }
  }

  /** A tick that fails, with or without its proposal stored. */
  lemma {:induction false} FailedTick(w: World, after: World, store: seq<Point>, binding: string, previous: map<Id, Record>,
                                      earlier: seq<seq<Fact>>, m: nat, sent: seq<Fact>, next: nat)
    requires Underway(w, binding, store, previous, earlier, m)
    requires m <= next <= |store| && Changed(store[..m], previous) + sent == Changed(store[..next], previous)
    requires after == w || after == w.(proposals := Stored(w.proposals, sent))
    ensures Underway(after, binding, store, previous, earlier, m) && Found(after, binding) == Found(w, binding)
  {
    var since := w.proposals[|earlier|..];
    OneMoreProposal(since, sent, store, previous, m, next);
    assert Stored(w.proposals, sent)[|earlier|..] == Stored(since, sent);
    CoversFewer(Stored(since, sent), store, previous, m, next);
  }

  /** A tick that fails in any way leaves the sweep where it is; any other brings it closer to its end. */
  lemma {:induction false} AnyTick(w: World, store: seq<Point>, binding: string, previous: map<Id, Record>, earlier: seq<seq<Fact>>,
                                   m: nat, c: Choice) returns (next: nat)
    requires DistinctIds(store) && c.limit > 0 && |EligibleIds(store)| <= MAX_TRACKED_FACTS
    requires Underway(w, binding, store, previous, earlier, m)
    ensures var after := Tick(w, store, binding, c);
            || EndedWith(after, store, previous, earlier)
            || (Underway(after, binding, store, previous, earlier, next)
                && (Closer(Found(w, binding), Found(after, binding))
                    || (Found(after, binding) == Found(w, binding) && !(Able(c) && c.outcome.Completes?))))
  {
    var after := Tick(w, store, binding, c);
    var sent, reached := WhatIsSent(w, store, binding, previous, m, c);
    if after.proposals == Stored(w.proposals, sent) && MovedOn(Found(w, binding), after.state, store, previous, reached) {
      next := reached;
      SavedTick(w, after, store, binding, previous, earlier, m, sent, next);
    } else {
      next := m;
      FailedTick(w, after, store, binding, previous, earlier, m, sent, reached);
    }
  }

  ghost predicate GoesWell(choices: nat -> Choice, i: nat) {
    Able(choices(i)) && choices(i).outcome.Completes?
  }

  ghost predicate WellAgain(choices: nat -> Choice, i: nat) {
    exists j: nat :: i <= j && GoesWell(choices, j)
  }

  /** A page may hold some points, and from any time on some tick is not disturbed. */
  ghost predicate Fair(choices: nat -> Choice) {
    (forall i: nat :: choices(i).limit > 0) && (forall i: nat :: WellAgain(choices, i))
  }

  /** What is left of a sweep: points of the store behind its page, and behind what it has processed. */
  function PagesLeft(w: World, binding: string, store: seq<Point>): int {
    |store| - Base(Found(w, binding))
  }

  function PointsLeft(w: World, binding: string, store: seq<Point>): int {
    |store| - |Found(w, binding).processed|
  }

  lemma {:induction false} LessIsLeft(now: World, after: World, binding: string, store: seq<Point>, previous: map<Id, Record>,
                                      earlier: seq<seq<Fact>>, m: nat)
    requires Underway(after, binding, store, previous, earlier, m)
    ensures PagesLeft(after, binding, store) >= 0 && PointsLeft(after, binding, store) >= 0
    ensures Closer(Found(now, binding), Found(after, binding)) ==>
              PagesLeft(after, binding, store) < PagesLeft(now, binding, store)
              || (PagesLeft(after, binding, store) == PagesLeft(now, binding, store)
                  && PointsLeft(after, binding, store) < PointsLeft(now, binding, store))
  {
  }

  /** From any stage, with a tick at `good` that is not disturbed. */
  lemma {:induction false} GoesOn(w: World, store: seq<Point>, binding: string, choices: nat -> Choice, i: nat, good: nat, now: World,
                                  previous: map<Id, Record>, earlier: seq<seq<Fact>>, m: nat, pages: int, points: int) returns (n: nat)
    requires DistinctIds(store) && Fair(choices) && |EligibleIds(store)| <= MAX_TRACKED_FACTS
    requires i <= good && GoesWell(choices, good)
    requires now == Ticks(w, store, binding, choices, i) && Underway(now, binding, store, previous, earlier, m)
    requires pages == PagesLeft(now, binding, store) >= 0 && points == PointsLeft(now, binding, store) >= 0
    ensures EndedWith(Ticks(w, store, binding, choices, n), store, previous, earlier)
    decreases pages, points, good - i
  {
    var after := Ticks(w, store, binding, choices, i + 1);
    var next, later := OneTick(store, binding, choices, i, good, now, after, previous, earlier, m);
    n := i + 1;
    if !EndedWith(after, store, previous, earlier) {
      LessIsLeft(now, after, binding, store, previous, earlier, next);
      n := GoesOn(w, store, binding, choices, i + 1, later, after, previous, earlier, next,
                  PagesLeft(after, binding, store), PointsLeft(after, binding, store));
    }
  }

  /** One tick ends the sweep, or brings it closer to its end, or leaves it where it is while the tick
      that is not disturbed comes closer. */
  lemma {:induction false} OneTick(store: seq<Point>, binding: string, choices: nat -> Choice, i: nat, good: nat, now: World, after: World,
                                   previous: map<Id, Record>, earlier: seq<seq<Fact>>, m: nat) returns (next: nat, later: nat)
    requires DistinctIds(store) && Fair(choices) && |EligibleIds(store)| <= MAX_TRACKED_FACTS
    requires i <= good && GoesWell(choices, good)
    requires Underway(now, binding, store, previous, earlier, m) && after == Tick(now, store, binding, choices(i))
    ensures i + 1 <= later && GoesWell(choices, later)
    ensures || EndedWith(after, store, previous, earlier)
            || (Underway(after, binding, store, previous, earlier, next)
                && (Closer(Found(now, binding), Found(after, binding))
                    || (Found(after, binding) == Found(now, binding) && i < good && later == good)))
  {
    next := AnyTick(now, store, binding, previous, earlier, m, choices(i));
    later := good;
    if i == good {
      assert WellAgain(choices, i + 1);
      later :| i + 1 <= later && GoesWell(choices, later);
    }
  }

  /** A sweep over a store that does not change, with ticks that fail before or after their proposal is
      stored, as long as good ticks keep coming: it ends, tracks exactly the eligible facts, reports
      exactly those that have gone, and the proposals stored on the way hold exactly the facts that
      differ from the previous sweep; a failed tick can only repeat some. */
  lemma {:induction false} SweepSurvivesFailures(w: World, store: seq<Point>, choices: nat -> Choice) returns (n: nat)
    requires DistinctIds(store) && Fair(choices) && IdleOk(w.state) && |EligibleIds(store)| <= MAX_TRACKED_FACTS
    ensures EndedWith(Ticks(w, store, w.state.binding, choices, n), store, w.state.previous, w.proposals)
  {
    assert store[..0] == [] && w.proposals[|w.proposals|..] == [];
    assert Ticks(w, store, w.state.binding, choices, 0) == w;
    assert WellAgain(choices, 0);
    var good: nat :| 0 <= good && GoesWell(choices, good);
    LessIsLeft(w, w, w.state.binding, store, w.state.previous, w.proposals, 0);
    n := GoesOn(w, store, w.state.binding, choices, 0, good, w, w.state.previous, w.proposals, 0,
                PagesLeft(w, w.state.binding, store), PointsLeft(w, w.state.binding, store));
  }
}
