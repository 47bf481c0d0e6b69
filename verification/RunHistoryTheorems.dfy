/** What readers and recoverers can rely on, and where the record of a full run breaks. */
module RunHistoryTheorems {
  import opened Faults
  import opened Options
  import opened RunHistory

  lemma {:induction false} SameSize(a: set<nat>, b: set<nat>)
    requires a <= b
    ensures |a| <= |b| && (|a| == |b| <==> a == b)
  {
    assert b == a + (b - a);
  }

  /** In every run, however writer, recoverers and readers take turns and die: when a reader has a
      completion whose event count is known, the count is the number of events there are. So it agrees
      with the events that were found exactly when none was cut off, and none is cut off unless
      temporary files make the directory overfull. */
  lemma {:induction false} ReadersAgree(events: seq<Event>, j: nat)
    ensures var w := Run(NEW, events);
            var r := Reading(w, j);
            r.Listed? && r.completion.Some? && r.completion.value.known ==>
              && r.completion.value.count == |w.dir.events|
              && (r.completion.value.count == |r.found| <==> r.found == w.dir.events)
              && (!r.truncated ==> r.completion.value.count == |r.found|)
  {
    RunIsGood(events);
    var w := Run(NEW, events);
    assert ReaderOk(w, j);
    EventsAreNumbered(w);
    if Reading(w, j).Listed? && Reading(w, j).completion.Some? {
      SameSize(Reading(w, j).found, w.dir.events);
    }
  }

  /** The number of events that a reader which lists the directory now would find. */
  function WouldFind(w: World, j: nat, kept: set<nat>): nat
    requires Reading(w, j).Loaded?
  {
    |Reading(Next(w, List(j, kept)), j).found|
  }

  /** Whether a known count can disagree with the listing is decided by the directory: it agrees,
      whichever entry is left out of an overfull one, exactly when the directory is not overfull, or has
      no event to lose. Of a directory with more than one entry too many a reader gets nothing. */
  lemma {:induction false} CountAgreesIff(events: seq<Event>, j: nat)
    ensures var w := Run(NEW, events);
            var r := Reading(w, j);
            r.Loaded? && r.completion.Some? && r.completion.value.known ==>
              ((forall kept :: WouldFind(w, j, kept) == r.completion.value.count) <==> !Overfull(w.dir) || w.dir.events == {})
  {
    RunIsGood(events);
    var w := Run(NEW, events);
    var r := Reading(w, j);
    assert ReaderOk(w, j);
    EventsAreNumbered(w);
    if r.Loaded? && r.completion.Some? && r.completion.value.known {
      var count := r.completion.value.count;
      if !Overfull(w.dir) || w.dir.events == {} {
        forall kept
          ensures WouldFind(w, j, kept) == count
        {
          assert {} * kept == {};
        }
      } else {
        var e :| e in w.dir.events;
        LosesOne(w, j, e);
        assert WouldFind(w, j, w.dir.events - {e}) != count;
      }
    }
  }

  lemma {:induction false} LosesOne(w: World, j: nat, e: nat)
    requires Reading(w, j).Loaded? && Overfull(w.dir) && e in w.dir.events
    ensures WouldFind(w, j, w.dir.events - {e}) == if Unreadable(w.dir) then 0 else |w.dir.events| - 1
    ensures |w.dir.events| > 0
  {
    var kept := w.dir.events - {e};
    assert w.dir.events - kept == {e} && w.dir.events * kept == kept;
  }

  /** What a reader finds is numbered from 1 without a gap, unless something was cut off. */
  lemma {:induction false} ReadersSeeNoGap(events: seq<Event>, j: nat)
    ensures var r := Reading(Run(NEW, events), j);
            r.Listed? && !r.truncated ==> exists n :: 0 <= n <= MAX_EVENTS && r.found == UpTo(n)
  {
    RunIsGood(events);
    assert ReaderOk(Run(NEW, events), j);
  }

  /** A run gets at most one completion. Recovery writes one only for a writer that is gone, while it
      holds the lock of the run itself. */
  lemma {:induction false} OneCompletion(events: seq<Event>, e: Event)
    ensures var w := Run(NEW, events);
            var n := Next(w, e);
            && (w.dir.completion.Some? ==> n.dir.completion == w.dir.completion && n.dir.events == w.dir.events)
            && (w.dir.completion.None? && n.dir.completion.Some? && n.dir.completion.value.recovered ==>
                  e.Complete? && w.writer.phase.Gone? && w.dir.lock == Some(Recoverer(e.i)))
            && (w.dir.completion.None? && n.dir.completion.Some? && !n.dir.completion.value.recovered ==>
                  e.Finish? && w.dir.lock == Some(Writer))
  {
    RunIsGood(events);
    var w := Run(NEW, events);
    if w.dir.completion.Some? {
      CompleteIsFinal(w, e);
    }
    if e.Complete? {
      assert RecovererOk(w, e.i);
    }
  }

  /** One pass of a recoverer that nothing disturbs. */
  function Pass(w: World, i: nat): World {
    Next(Next(Next(Next(Next(Next(w, Suspect(i)), Acquire(i)), Recheck(i)), Count(i)), Complete(i, Works)), Leave(i))
  }

  /** A pass completes an unfinished run exactly when its lock is free and its directory is not
      overfull, and then with the right count. An overfull run is never completed. */
  lemma {:induction false} PassCompletes(w: World, i: nat)
    requires Good(w) && w.dir.started && w.dir.completion.None? && Recovering(w, i) == Away
    ensures var n := Pass(w, i);
            && (n.dir.completion.Some? <==> w.dir.lock.None? && !Overfull(w.dir))
            && (n.dir.completion.Some? ==> n.dir.completion.value == Completion(true, |w.dir.events|, true))
            && n.dir.lock == w.dir.lock && n.dir.events == w.dir.events
  {
    var a := Next(w, Suspect(i));
    assert Recovering(a, i) == Suspects && a.dir == w.dir;
    var b := Next(a, Acquire(i));
    if w.dir.lock.None? {
      assert Recovering(b, i) == Holding && b.dir == w.dir.(lock := Some(Recoverer(i)));
      var c := Next(b, Recheck(i));
      assert Recovering(c, i) == Rechecked && c.dir == b.dir;
      var d := Next(c, Count(i));
      assert d.dir == b.dir && Recovering(d, i) == if Overfull(b.dir) then Leaving else Counted(|b.dir.events|);
    } else {
      assert Recovering(b, i) == Away && b.dir == w.dir;
    }
  }

  lemma {:induction false} OneEvent(w: World, events: seq<Event>, e: Event)
    ensures Run(w, events + [e]) == Next(Run(w, events), e)
  {
    assert (events + [e])[..|events|] == events;
  }

  /** A writer that has written `n` events and still runs. */
  function Writes(n: nat, temps: nat): World {
    World(Dir(true, UpTo(n), temps, None, Some(Writer)), WriterState(Running, n, false), map[], map[])
  }

  lemma {:induction false} ThreeEvents(w: World, events: seq<Event>, a: Event, b: Event, c: Event)
    ensures Run(w, events + [a] + [b] + [c]) == Next(Next(Next(Run(w, events), a), b), c)
  {
    OneEvent(w, events, a);
    OneEvent(w, events + [a], b);
    OneEvent(w, events + [a] + [b], c);
  }

  lemma {:induction false} Written(n: nat, removed: bool)
    requires n < MAX_EVENTS
    ensures Next(Next(Next(Writes(n, 0), BeginEvent), LinkEvent(Works)), Clean(removed)) == Writes(n + 1, if removed then 0 else 1)
  {
    OneMore(n);
    var a := Next(Writes(n, 0), BeginEvent);
    assert a == World(Dir(true, UpTo(n), 1, None, Some(Writer)), WriterState(Writing, n, false), map[], map[]);
    var b := Next(a, LinkEvent(Works));
    assert b == World(Dir(true, UpTo(n + 1), 1, None, Some(Writer)), WriterState(Cleaning, n + 1, false), map[], map[]);
  }

  lemma {:induction false} WriteOne(w: World, events: seq<Event>, n: nat, removed: bool) returns (more: seq<Event>)
    requires Run(w, events) == Writes(n, 0) && n < MAX_EVENTS
    ensures Run(w, more) == Writes(n + 1, if removed then 0 else 1)
  {
    Written(n, removed);
    ThreeEvents(w, events, BeginEvent, LinkEvent(Works), Clean(removed));
    more := events + [BeginEvent] + [LinkEvent(Works)] + [Clean(removed)];
  }

  lemma {:induction false} StartRun() returns (events: seq<Event>)
    ensures Run(NEW, events) == Writes(0, 0)
  {
    OneEvent(NEW, [], Lock);
    OneEvent(NEW, [] + [Lock], Start(Works));
    events := [] + [Lock] + [Start(Works)];
    var locked := Next(NEW, Lock);
    assert locked == World(Dir(false, {}, 0, None, Some(Writer)), WriterState(Locked, 0, false), map[], map[]);
  }

  /** A run that has written `n` events can write one more. */
  ghost predicate GoesOnAt(written: (seq<Event>, nat) -> bool, events: seq<Event>, n: nat, next: nat) {
    written(events, n) && next == n + 1 <= MAX_EVENTS ==> exists more :: written(more, next)
  }

  ghost predicate GoesOn(written: (seq<Event>, nat) -> bool) {
    forall events, n: nat, next: nat :: GoesOnAt(written, events, n, next)
  }

  lemma {:induction false} WriteMany(written: (seq<Event>, nat) -> bool, start: seq<Event>, n: nat) returns (events: seq<Event>)
    requires GoesOn(written) && written(start, 0) && n <= MAX_EVENTS
    ensures written(events, n)
  {
    events := start;
    for i := 0 to n
      invariant written(events, i)
    {
      assert GoesOnAt(written, events, i, i + 1);
      events :| written(events, i + 1);
    }
  }

  /** The runs that have written `n` events and left no temporary file. */
  ghost function WrittenRuns(): (seq<Event>, nat) -> bool {
    (events: seq<Event>, n: nat) => Run(NEW, events) == Writes(n, 0)
  }

  lemma {:induction false} RunsGoOn()
    ensures GoesOn(WrittenRuns())
  {
    forall events: seq<Event>, n: nat, next: nat
      ensures GoesOnAt(WrittenRuns(), events, n, next)
    {
      if WrittenRuns()(events, n) && next == n + 1 <= MAX_EVENTS {
        var more := WriteOne(NEW, events, n, true);
        assert WrittenRuns()(more, next);
      }
    }
  }

  lemma {:induction false} ReadsAll(w: World, j: nat, kept: set<nat>)
    requires w.dir.started && Reading(w, j) == Idle && !Overfull(w.dir)
    ensures Reading(Next(Next(w, Load(j)), List(j, kept)), j) == Listed(w.dir.completion, w.dir.events, false)
  {
    var loaded := Next(w, Load(j));
    assert loaded.dir == w.dir && Reading(loaded, j) == Loaded(w.dir.completion);
  }

  /** A run in which nothing goes wrong writes up to the allowed number of events, is completed with
      that number as a known count, and its reader finds exactly these events. */
  lemma {:induction false} UndisturbedRun(n: nat, kept: set<nat>) returns (events: seq<Event>)
    requires n <= MAX_EVENTS
    ensures var w := Run(NEW, events);
            && w.dir.events == UpTo(n) && w.dir.completion == Some(Completion(false, n, true))
            && Reading(w, 0) == Listed(w.dir.completion, UpTo(n), false)
  {
    var before := StartRun();
    RunsGoOn();
    before := WriteMany(WrittenRuns(), before, n);
    ThreeEvents(NEW, before, Finish(Works), Load(0), List(0, kept));
    events := before + [Finish(Works)] + [Load(0)] + [List(0, kept)];
    var w := Writes(n, 0);
    Finishes(w);
    UpToIs(n);
    ReadsAll(Next(w, Finish(Works)), 0, kept);
  }

  /** The world after one attempt to write an event. */
  function Attempted(w: World, fault: Fault, removed: bool): World {
    Next(Next(Next(w, BeginEvent), LinkEvent(fault)), Clean(removed))
  }

  /** An attempt to write an event adds the next number exactly when there is room, the number is free
      and the write is not lost, and only a write that works is counted. Any other attempt makes the
      count of the run unknown for good. */
  lemma {:induction false} AttemptIff(w: World, fault: Fault, removed: bool)
    requires w.writer.phase.Running?
    ensures var after := Attempted(w, fault, removed);
            var n := w.writer.count + 1;
            var added := n <= MAX_EVENTS && n !in w.dir.events && !fault.LostBefore?;
            && after.writer.phase.Running? && after.dir.completion == w.dir.completion
            && after.dir.events == w.dir.events + (if added then {n} else {})
            && after.writer.count == (if added && fault.Works? then n else w.writer.count)
            && (after.writer.failed <==> w.writer.failed || !added || !fault.Works?)
  {
    var a := Next(w, BeginEvent);
    if w.writer.count < MAX_EVENTS {
      assert a.writer == w.writer.(phase := Writing) && a.dir.events == w.dir.events;
      var b := Next(a, LinkEvent(fault));
      assert b.writer.phase.Cleaning? && b.dir.completion == w.dir.completion;
    } else {
      assert a == w.(writer := w.writer.(failed := true));
      assert Next(a, LinkEvent(fault)) == a;
    }
  }

  /** A run can use up all its events and leave one temporary file behind. */
  lemma {:induction false} FullRun(full: nat) returns (events: seq<Event>)
    requires full == MAX_EVENTS
    ensures Run(NEW, events) == Writes(full, 1)
  {
    events := StartRun();
    RunsGoOn();
    events := WriteMany(WrittenRuns(), events, full - 1);
    events := WriteOne(NEW, events, full - 1, false);
  }

  /** Dropping the last event from a full, overfull directory. */
  lemma {:induction false} CutLast(d: Dir, full: nat)
    requires full == MAX_EVENTS && d.events == UpTo(full) && d.temps == 1
    ensures Cut(d, UpTo(full - 1)) && Overfull(d) && |d.events * UpTo(full - 1)| == full - 1
  {
    OneMore(full - 1);
    UpToIs(full);
    UpToIs(full - 1);
    assert UpTo(full) - UpTo(full - 1) == {full};
    assert UpTo(full) * UpTo(full - 1) == UpTo(full - 1);
  }

  lemma {:induction false} Finishes(w: World)
    requires w.writer.phase.Running? && w.dir.completion.None?
    ensures Next(w, Finish(Works)).dir == w.dir.(completion := Some(Completion(false, w.writer.count, !w.writer.failed)))
    ensures Next(w, Finish(Works)).readers == w.readers
  {
  }

  lemma {:induction false} Reads(w: World, j: nat, kept: set<nat>)
    requires w.dir.started && Reading(w, j) == Idle && Cut(w.dir, kept)
    ensures Reading(Next(Next(w, Load(j)), List(j, kept)), j) == Listed(w.dir.completion, w.dir.events * kept, true)
  {
    var loaded := Next(w, Load(j));
    assert loaded.dir == w.dir && Reading(loaded, j) == Loaded(w.dir.completion);
  }

  /** Then the count of a complete record can disagree with what a reader finds. */
  lemma {:induction false} FullRunCanLookCorrupt(full: nat) returns (events: seq<Event>)
    requires full == MAX_EVENTS
    ensures var r := Reading(Run(NEW, events), 0);
            && r.Listed? && r.completion == Some(Completion(false, full, true))
            && |r.found| == full - 1
  {
    var before := FullRun(full);
    var kept := UpTo(full - 1);
    ThreeEvents(NEW, before, Finish(Works), Load(0), List(0, kept));
    events := before + [Finish(Works)] + [Load(0)] + [List(0, kept)];
    var w := Writes(full, 1);
    Finishes(w);
    var done := Next(w, Finish(Works));
    CutLast(done.dir, full);
    Reads(done, 0, kept);
  }

  lemma {:induction false} Dies(w: World)
    requires w.writer.phase.Running? && w.dir.lock == Some(Writer)
    ensures var n := Next(w, WriterDies);
            n.writer.phase.Gone? && n.dir == w.dir.(lock := None) && n.recoverers == w.recoverers
  {
  }

  lemma {:induction false} OneTooMany(d: Dir, full: nat)
    requires full == MAX_EVENTS && |d.events| == full && d.temps == 1
    ensures Overfull(d)
  {
  }

  lemma {:induction false} DiesFull(full: nat)
    requires full == MAX_EVENTS
    ensures var w := Next(Writes(full, 1), WriterDies);
            && w.writer.phase.Gone? && w.dir.started && w.dir.completion.None? && w.dir.lock.None? && Overfull(w.dir)
            && w.recoverers == map[]
  {
    UpToIs(full);
    Dies(Writes(full, 1));
    OneTooMany(Next(Writes(full, 1), WriterDies).dir, full);
  }

  /** And when its writer dies, no recovery pass ever completes it. */
  lemma {:induction false} FullRunCanStayOpen(full: nat, i: nat) returns (events: seq<Event>)
    requires full == MAX_EVENTS
    ensures var w := Run(NEW, events);
            && w.writer.phase.Gone? && w.dir.started && w.dir.completion.None? && w.dir.lock.None?
            && Pass(w, i).dir.completion.None?
  {
    var before := FullRun(full);
    OneEvent(NEW, before, WriterDies);
    events := before + [WriterDies];
    RunIsGood(events);
    DiesFull(full);
    PassCompletes(Run(NEW, events), i);
  }
}
