/** The record of one maintenance run: a writer that adds events, recoverers that complete it when the
    writer is gone, and readers, all at the same time. Every step of each of them is one event here. */
module RunHistory {
  import opened Faults
  import opened Options

  const MAX_EVENTS: nat := 256

  datatype Actor = Writer | Recoverer(id: nat)

  /** The final record. `count` is the number of events, if it is `known`. */
  datatype Completion = Completion(recovered: bool, count: nat, known: bool)

  /** The directory of the run. `temps` counts temporary files next to the events that were not removed
      (yet). The liveness lock belongs to one actor at a time and is released when that one dies. */
  datatype Dir = Dir(started: bool, events: set<nat>, temps: nat, completion: Option<Completion>, lock: Option<Actor>)

  datatype WriterPhase = Fresh | Locked | Running | Writing | Cleaning | Ending | Gone

  datatype WriterState = WriterState(phase: WriterPhase, count: nat, failed: bool)

  datatype RecovererPhase = Away | Suspects | Holding | Rechecked | Counted(n: nat) | Leaving

  /** A reader loads the completion before it lists the events. */
  datatype ReaderPhase = Idle | Loaded(completion: Option<Completion>)
                       | Listed(completion: Option<Completion>, found: set<nat>, truncated: bool)

  datatype World = World(dir: Dir, writer: WriterState, recoverers: map<nat, RecovererPhase>, readers: map<nat, ReaderPhase>)

  const NEW := World(Dir(false, {}, 0, None, None), WriterState(Fresh, 0, false), map[], map[])

  datatype Event =
    | Lock | Start(fault: Fault) | BeginEvent | LinkEvent(fault: Fault) | Clean(removed: bool) | Finish(fault: Fault) | Release
    | WriterDies
    | Suspect(i: nat) | Acquire(i: nat) | Recheck(i: nat) | Count(i: nat) | Complete(i: nat, fault: Fault) | Leave(i: nat)
    | RecovererDies(i: nat)
    | Load(j: nat) | List(j: nat, kept: set<nat>) | Forget(j: nat)

  function Recovering(w: World, i: nat): RecovererPhase {
    if i in w.recoverers then w.recoverers[i] else Away
  }

  function Reading(w: World, j: nat): ReaderPhase {
    if j in w.readers then w.readers[j] else Idle
  }

  // ---------------------------------------------------------------- the writer

  function WithWriter(w: World, dir: Dir, writer: WriterState): World {
    w.(dir := dir, writer := writer)
  }

  function WriterStep(w: World, e: Event): World {
    var d, r := w.dir, w.writer;
    match e
    case Lock =>
      if r.phase != Fresh then w
      else if d.lock.Some? then WithWriter(w, d, r.(phase := Gone))
      else WithWriter(w, d.(lock := Some(Writer)), r.(phase := Locked))
    case Start(fault) =>
      if r.phase != Locked then w
      else
        var after := d.(started := d.started || fault != LostBefore);
        if fault.Works? then WithWriter(w, after, r.(phase := Running))
        else WithWriter(w, after.(lock := None), r.(phase := Gone))
    case BeginEvent =>
      if r.phase != Running then w
      else if r.count + 1 > MAX_EVENTS then WithWriter(w, d, r.(failed := true))
      else WithWriter(w, d.(temps := d.temps + 1), r.(phase := Writing))
    case LinkEvent(fault) =>
      if r.phase != Writing then w
      else
        var n := r.count + 1;
        if n in d.events || fault.LostBefore? then WithWriter(w, d, r.(phase := Cleaning, failed := true))
        else if fault.LostAfter? then WithWriter(w, d.(events := d.events + {n}), r.(phase := Cleaning, failed := true))
        else WithWriter(w, d.(events := d.events + {n}), r.(phase := Cleaning, count := n))
    case Clean(removed) =>
      if r.phase != Cleaning then w
      else WithWriter(w, d.(temps := if removed && d.temps > 0 then d.temps - 1 else d.temps), r.(phase := Running))
    case Finish(fault) =>
      if r.phase != Running then w
      else
        var written := d.completion.None? && fault != LostBefore;
        WithWriter(w, if written then d.(completion := Some(Completion(false, r.count, !r.failed))) else d, r.(phase := Ending))
    case Release =>
      if r.phase != Ending then w else WithWriter(w, d.(lock := None), r.(phase := Gone))
    case WriterDies =>
      WithWriter(w, if d.lock == Some(Writer) then d.(lock := None) else d, r.(phase := Gone))
    case _ => w
  }

  // ---------------------------------------------------------------- recoverers

  function WithRecoverer(w: World, dir: Dir, i: nat, phase: RecovererPhase): World {
    w.(dir := dir, recoverers := w.recoverers[i := phase])
  }

  /** A directory with more entries than events are allowed counts as corrupt. */
  predicate Overfull(d: Dir) {
    |d.events| + d.temps > MAX_EVENTS
  }

  function RecovererStep(w: World, e: Event): World {
    var d := w.dir;
    match e
    case Suspect(i) =>
      if Recovering(w, i) == Away && d.started && d.completion.None? then WithRecoverer(w, d, i, Suspects) else w
    case Acquire(i) =>
      if Recovering(w, i) != Suspects then w
      else if d.lock.Some? then WithRecoverer(w, d, i, Away)
      else WithRecoverer(w, d.(lock := Some(Recoverer(i))), i, Holding)
    case Recheck(i) =>
      if Recovering(w, i) != Holding then w
      else WithRecoverer(w, d, i, if d.started && d.completion.None? then Rechecked else Leaving)
    case Count(i) =>
      if Recovering(w, i) != Rechecked then w
      else WithRecoverer(w, d, i, if Overfull(d) then Leaving else Counted(|d.events|))
    case Complete(i, fault) =>
      if !Recovering(w, i).Counted? then w
      else
        var written := d.completion.None? && fault != LostBefore;
        WithRecoverer(w, if written then d.(completion := Some(Completion(true, Recovering(w, i).n, true))) else d, i, Leaving)
    case Leave(i) =>
      if Recovering(w, i) != Leaving then w else WithRecoverer(w, d.(lock := None), i, Away)
    case RecovererDies(i) =>
      WithRecoverer(w, if d.lock == Some(Recoverer(i)) then d.(lock := None) else d, i, Away)
    case _ => w
  }

  // ---------------------------------------------------------------- readers

  /** With one entry too many a listing is cut to the allowed number, whichever entry is left out. */
  predicate Cut(d: Dir, kept: set<nat>) {
    |d.events| + d.temps == MAX_EVENTS + 1 && |d.events - kept| <= 1
  }

  /** With more than one too many there is no listing. */
  predicate Unreadable(d: Dir) {
    |d.events| + d.temps > MAX_EVENTS + 1
  }

  function ReaderStep(w: World, e: Event): World {
    match e
    case Load(j) =>
      if Reading(w, j) == Idle && w.dir.started then w.(readers := w.readers[j := Loaded(w.dir.completion)]) else w
    case List(j, kept) =>
      if !Reading(w, j).Loaded? then w
      else
        var found := if Unreadable(w.dir) then {} else if Cut(w.dir, kept) then w.dir.events * kept else w.dir.events;
        var completion := if Unreadable(w.dir) then None else Reading(w, j).completion;
        w.(readers := w.readers[j := Listed(completion, found, Overfull(w.dir))])
    case Forget(j) => w.(readers := w.readers[j := Idle])
    case _ => w
  }

  function Next(w: World, e: Event): World {
    if e.Load? || e.List? || e.Forget? then ReaderStep(w, e)
    else if e.Suspect? || e.Acquire? || e.Recheck? || e.Count? || e.Complete? || e.Leave? || e.RecovererDies? then RecovererStep(w, e)
    else WriterStep(w, e)
  }

  function Run(w: World, events: seq<Event>): World
    decreases |events|
  {
    if events == [] then w else Next(Run(w, events[..|events| - 1]), events[|events| - 1])
  }

  // ---------------------------------------------------------------- the invariant

  function UpTo(n: nat): set<nat> {
    if n == 0 then {} else UpTo(n - 1) + {n}
  }

  lemma {:induction false} UpToIs(n: nat)
    ensures |UpTo(n)| == n && forall k: nat :: k in UpTo(n) <==> 1 <= k <= n
  {
    if n > 0 {
      UpToIs(n - 1);
    }
  }

  predicate Live(p: WriterPhase) {
    p.Locked? || p.Running? || p.Writing? || p.Cleaning? || p.Ending?
  }

  predicate Holds(p: RecovererPhase) {
    p.Holding? || p.Rechecked? || p.Counted? || p.Leaving?
  }

  /** The events are numbered without a gap. After a write that reported an error, one more event may
      be there than the writer counts. */
  ghost predicate EventsOk(w: World) {
    && w.writer.count <= MAX_EVENTS
    && (w.dir.events == UpTo(w.writer.count)
        || (w.writer.failed && w.writer.count < MAX_EVENTS && w.dir.events == UpTo(w.writer.count + 1)))
    && (w.writer.phase.Writing? ==> w.writer.count < MAX_EVENTS)
  }

  ghost predicate LockOk(w: World) {
    && (w.dir.lock == Some(Writer) <==> Live(w.writer.phase))
    && (w.dir.started ==> !w.writer.phase.Fresh? && !w.writer.phase.Locked?)
    && (!w.dir.started ==> w.dir.events == {} && w.dir.completion.None? && w.writer.count == 0 && !w.writer.failed
                           && (w.writer.phase.Fresh? || w.writer.phase.Locked? || w.writer.phase.Gone?))
  }

  ghost predicate CompletionOk(w: World) {
    w.dir.completion.Some? ==>
      var c := w.dir.completion.value;
      if c.recovered then w.writer.phase.Gone? && c.known && c.count == |w.dir.events|
      else (w.writer.phase.Ending? || w.writer.phase.Gone?) && c.count == w.writer.count && c.known == !w.writer.failed
  }

  ghost predicate RecovererOk(w: World, i: nat) {
    var p := Recovering(w, i);
    && (Holds(p) <==> w.dir.lock == Some(Recoverer(i)))
    && (p.Suspects? || Holds(p) ==> w.dir.started)
    && (p.Rechecked? || p.Counted? ==> w.dir.completion.None?)
    && (p.Counted? ==> p.n == |w.dir.events|)
  }

  ghost predicate ReaderOk(w: World, j: nat) {
    match Reading(w, j)
    case Idle => true
    case Loaded(c) => c.Some? ==> w.dir.completion == c
    case Listed(c, found, truncated) =>
      && (c.Some? ==> w.dir.completion == c && found <= w.dir.events && (!truncated ==> found == w.dir.events))
      && (!truncated ==> exists n :: 0 <= n <= MAX_EVENTS && found == UpTo(n))
  }

  ghost predicate Good(w: World) {
    && EventsOk(w) && LockOk(w) && CompletionOk(w)
    && (forall i: nat :: RecovererOk(w, i)) && (forall j: nat :: ReaderOk(w, j))
  }

  lemma {:induction false} EventsAreNumbered(w: World)
    requires EventsOk(w)
    ensures exists n :: 0 <= n <= MAX_EVENTS && w.dir.events == UpTo(n)
    ensures !w.writer.failed ==> |w.dir.events| == w.writer.count
  {
    UpToIs(w.writer.count);
  }

  /** Once the record is complete no event is added, and the completion stays. */
  lemma {:induction false} CompleteIsFinal(w: World, e: Event)
    requires Good(w) && w.dir.completion.Some?
    ensures Next(w, e).dir.completion == w.dir.completion && Next(w, e).dir.events == w.dir.events
  {
  }

  predicate OfWriter(e: Event) {
    e.Lock? || e.Start? || e.BeginEvent? || e.LinkEvent? || e.Clean? || e.Finish? || e.Release? || e.WriterDies?
  }

  lemma {:induction false} WriterKeepsEvents(w: World, e: Event)
    requires EventsOk(w) && OfWriter(e)
    ensures EventsOk(Next(w, e))
  {
    if e.LinkEvent? && w.writer.phase.Writing? {
      LinkKeepsEvents(w, e.fault);
    }
  }

  lemma {:induction false} LinkKeepsEvents(w: World, fault: Fault)
    requires EventsOk(w) && w.writer.phase.Writing?
    ensures EventsOk(WriterStep(w, LinkEvent(fault)))
  {
    OneMore(w.writer.count);
  }

  lemma {:induction false} OneMore(n: nat)
    ensures n + 1 !in UpTo(n) && UpTo(n + 1) == UpTo(n) + {n + 1}
  {
    UpToIs(n);
  }

  lemma {:induction false} WriterKeepsLock(w: World, e: Event)
    requires LockOk(w) && CompletionOk(w) && OfWriter(e)
    ensures LockOk(Next(w, e)) && CompletionOk(Next(w, e))
  {
  }

  lemma {:induction false} WriterKeepsRecoverer(w: World, e: Event, i: nat)
    requires LockOk(w) && RecovererOk(w, i) && OfWriter(e)
    ensures RecovererOk(Next(w, e), i)
  {
  }

  lemma {:induction false} WriterKeeps(w: World, e: Event)
    requires Good(w) && OfWriter(e)
    ensures Good(Next(w, e))
  {
    var n := Next(w, e);
    WriterKeepsEvents(w, e);
    WriterKeepsLock(w, e);
    forall i: nat
      ensures RecovererOk(n, i)
    {
      WriterKeepsRecoverer(w, e, i);
    }
    forall j: nat
      ensures ReaderOk(n, j)
    {
      assert ReaderOk(w, j);
      if w.dir.completion.Some? {
        CompleteIsFinal(w, e);
      }
    }
  }

  lemma {:induction false} RecovererKeeps(w: World, e: Event, i: nat)
    requires Good(w) && OfRecoverer(e, i)
    ensures Good(Next(w, e))
  {
    var n := Next(w, e);
    assert RecovererOk(w, i);
    RecovererAddsNoEvent(w, e, i);
    RecovererKeepsRecord(w, e, i);
    forall k: nat
      ensures RecovererOk(n, k)
    {
      assert RecovererOk(w, k);
      RecovererKeepsRecoverer(w, e, i, k);
    }
    forall j: nat
      ensures ReaderOk(n, j)
    {
      assert ReaderOk(w, j);
      RecovererKeepsReader(w, e, i, j);
    }
  }

  lemma {:induction false} RecovererAddsNoEvent(w: World, e: Event, i: nat)
    requires OfRecoverer(e, i)
    ensures Next(w, e).dir.events == w.dir.events && Next(w, e).writer == w.writer && Next(w, e).dir.started == w.dir.started
  {
  }

  lemma {:induction false} RecovererKeepsRecord(w: World, e: Event, i: nat)
    requires LockOk(w) && CompletionOk(w) && RecovererOk(w, i) && OfRecoverer(e, i)
    ensures LockOk(Next(w, e)) && CompletionOk(Next(w, e))
  {
  }

  lemma {:induction false} RecovererKeepsReader(w: World, e: Event, i: nat, j: nat)
    requires OfRecoverer(e, i) && RecovererOk(w, i) && ReaderOk(w, j)
    ensures ReaderOk(Next(w, e), j)
  {
  }

  predicate OfRecoverer(e: Event, i: nat) {
    e == Suspect(i) || e == Acquire(i) || e == Recheck(i) || e == Count(i) || (e.Complete? && e.i == i) || e == Leave(i)
    || e == RecovererDies(i)
  }

  lemma {:induction false} RecovererKeepsRecoverer(w: World, e: Event, i: nat, k: nat)
    requires OfRecoverer(e, i) && LockOk(w) && RecovererOk(w, i) && RecovererOk(w, k)
    ensures RecovererOk(Next(w, e), k)
  {
  }

  lemma {:induction false} ReaderKeepsReader(w: World, e: Event, j: nat)
    requires EventsOk(w) && ReaderOk(w, j) && Next(w, e) == ReaderStep(w, e)
    ensures ReaderOk(Next(w, e), j)
  {
    EventsAreNumbered(w);
  }

  lemma {:induction false} ReaderKeeps(w: World, e: Event)
    requires Good(w) && Next(w, e) == ReaderStep(w, e)
    ensures Good(Next(w, e))
  {
    var n := Next(w, e);
    forall i: nat
      ensures RecovererOk(n, i)
    {
      assert RecovererOk(w, i);
    }
    forall j: nat
      ensures ReaderOk(n, j)
    {
      assert ReaderOk(w, j);
      ReaderKeepsReader(w, e, j);
    }
  }

  lemma {:induction false} RunIsGood(events: seq<Event>)
    ensures Good(Run(NEW, events))
    decreases |events|
  {
    if events != [] {
      var w := Run(NEW, events[..|events| - 1]);
      var e := events[|events| - 1];
      RunIsGood(events[..|events| - 1]);
      if e.Load? || e.List? || e.Forget? {
        ReaderKeeps(w, e);
      } else if e.Suspect? || e.Acquire? || e.Recheck? || e.Count? || e.Complete? || e.Leave? || e.RecovererDies? {
        RecovererKeeps(w, e, e.i);
      } else {
        WriterKeeps(w, e);
      }
    }
  }
}
