/** What the ledger guarantees over whole runs: calls, failed saves, crashes, restarts and days that
    go by, in any order. */
module BudgetRuns {
  import opened Faults
  import opened Options
  import opened BudgetLedger

  /** A dispatched call. `used` is what it really uses, which nobody knows before it is finished;
      `limits` were in force when it was dispatched. */
  datatype Call = Call(id: Id, reserved: int, used: nat, limits: Limits)

  /** The running program. `flying` is the call that holds the only place in the queue. */
  datatype Process = Process(limits: Limits, ledger: Ledger, flying: Option<nat>)

  datatype World = World(disk: Option<Ledger>, process: Option<Process>, calls: seq<Call>)

  datatype Event =
    | Start(limits: Limits)
    | Begin(day: Day, used: nat, fault: Fault)
    | Finish(known: bool, fault: Fault)
    | Crash

  const FRESH := World(None, None, [])

  // ---------------------------------------------------------------- steps

  datatype Began = Began(ledger: Ledger, disk: Option<Ledger>, id: Option<Id>)

  /** Asks for a call on a day. A failed save leaves the booking in memory. */
  function BeginCall(l: Ledger, disk: Option<Ledger>, limits: Limits, day: Day, fault: Fault): Began {
    if l.day > day then Began(l, disk, None)
    else
      var rolled := Rolled(l, day);
      if !Admits(rolled, limits) then Began(rolled, disk, None)
      else
        var booked := Booked(rolled, limits);
        Began(booked, if fault.LostBefore? then disk else Some(booked),
              if fault.Works? then Some(Id(day, booked.next)) else None)
  }

  /** Reports what a call has used, if that is known. A failed save takes the settlement back. */
  function FinishCall(l: Ledger, disk: Option<Ledger>, limits: Limits, id: Id, used: int, known: bool, fault: Fault)
    : (Ledger, Option<Ledger>)
  {
    if id in l.pending && known && used >= 0 then
      var settled := Settled(l, limits, id, used);
      (if fault.Works? then settled else l, if fault.LostBefore? then disk else Some(settled))
    else (l, disk)
  }

  ghost function Next(w: World, e: Event): World {
    match e
    case Start(limits) =>
      if !LimitsOk(limits) || (w.disk.Some? && !ValidLedger(w.disk.value)) then w.(process := None)
      else w.(process := Some(Process(limits, if w.disk.None? then EMPTY else w.disk.value, None)))
    case Crash => w.(process := None)
    case Begin(day, used, fault) =>
      if w.process.None? || w.process.value.flying.Some? || day == NO_DAY then w
      else
        var p := w.process.value;
        var r := BeginCall(p.ledger, w.disk, p.limits, day, fault);
        World(r.disk, Some(p.(ledger := r.ledger, flying := if r.id.Some? then Some(|w.calls|) else None)),
              if r.id.Some? then w.calls + [Call(r.id.value, p.limits.reservation, used, p.limits)] else w.calls)
    case Finish(known, fault) =>
      if w.process.None? || w.process.value.flying.None? || w.process.value.flying.value >= |w.calls| then w
      else
        var p := w.process.value;
        var c := w.calls[p.flying.value];
        var r := FinishCall(p.ledger, w.disk, p.limits, c.id, c.used, known, fault);
        w.(disk := r.1, process := Some(p.(ledger := r.0, flying := None)))
  }

  ghost function Run(w: World, events: seq<Event>): World
    decreases |events|
  {
    if events == [] then w else Next(Run(w, events[..|events| - 1]), events[|events| - 1])
  }

  // ---------------------------------------------------------------- the account

  predicate Within(c: Call) {
    c.used <= c.reserved
  }

  /** What a ledger has to hold for a call: all that was reserved while the call is pending, and what
      it used when it is settled. */
  function Due(c: Call, l: Ledger): int {
    if c.id.day != l.day then 0
    else if c.id in l.pending then c.reserved
    else if Within(c) then c.used
    else 0
  }

  function DueSum(calls: seq<Call>, l: Ledger): int {
    if calls == [] then 0 else DueSum(calls[..|calls| - 1], l) + Due(calls[|calls| - 1], l)
  }

  function CallsOn(calls: seq<Call>, day: Day): nat {
    if calls == [] then 0
    else CallsOn(calls[..|calls| - 1], day) + if calls[|calls| - 1].id.day == day then 1 else 0
  }

  /** What the calls of a day that stayed within their reservations have used. */
  function UsedOn(calls: seq<Call>, day: Day): nat {
    if calls == [] then 0
    else UsedOn(calls[..|calls| - 1], day)
         + if calls[|calls| - 1].id.day == day && Within(calls[|calls| - 1]) then calls[|calls| - 1].used else 0
  }

  /** A ledger accounts for the dispatched calls. */
  ghost predicate Account(l: Ledger, calls: seq<Call>) {
    && (l == EMPTY || ValidLedger(l)) && InRange(l) && l.next == l.calls
    && (forall id :: id in l.pending ==> id.n <= l.next)
    && (forall i :: 0 <= i < |calls| ==> Known(calls[i], l))
    && DueSum(calls, l) <= l.tokens && CallsOn(calls, l.day) <= l.calls
  }

  ghost predicate Known(c: Call, l: Ledger) {
    && c.id.day <= l.day && c.reserved > 0
    && (c.id.day == l.day ==> c.id.n <= l.next)
    && (c.id in l.pending ==> l.pending[c.id] == c.reserved)
  }

  ghost predicate DistinctCalls(calls: seq<Call>) {
    forall i, j :: 0 <= i < j < |calls| ==> calls[i].id != calls[j].id
  }

  /** When a call was dispatched, it was within the daily limits of that moment, together with all
      calls of the day before it. */
  ghost predicate Admitted(calls: seq<Call>, i: nat)
    requires i < |calls|
  {
    && CallsOn(calls[..i + 1], calls[i].id.day) <= calls[i].limits.dailyCalls
    && UsedOn(calls[..i + 1], calls[i].id.day) <= calls[i].limits.dailyTokens
  }

  ghost predicate FlyingOk(p: Process, calls: seq<Call>) {
    p.flying.Some? ==>
      && p.flying.value < |calls|
      && var c := calls[p.flying.value];
         c.id in p.ledger.pending && c.reserved == p.limits.reservation && p.ledger.tokens <= p.limits.dailyTokens
  }

  ghost predicate Good(w: World) {
    && (w.disk.None? ==> w.calls == [])
    && (w.disk.Some? ==> ValidLedger(w.disk.value) && Account(w.disk.value, w.calls))
    && (w.process.Some? ==>
          && LimitsOk(w.process.value.limits) && Account(w.process.value.ledger, w.calls)
          && FlyingOk(w.process.value, w.calls)
          && (w.disk.Some? ==> w.disk.value.day <= w.process.value.ledger.day))
    && DistinctCalls(w.calls)
    && (forall i :: 0 <= i < |w.calls| ==> Admitted(w.calls, i))
  }

  lemma {:induction false} DueSumSame(calls: seq<Call>, l: Ledger, m: Ledger)
    requires forall i :: 0 <= i < |calls| ==> Due(calls[i], m) == Due(calls[i], l)
    ensures DueSum(calls, m) == DueSum(calls, l)
  {
    if calls != [] {
      DueSumSame(calls[..|calls| - 1], l, m);
    }
  }

  lemma {:induction false} DueSumZero(calls: seq<Call>, l: Ledger)
    requires forall i :: 0 <= i < |calls| ==> calls[i].id.day != l.day
    ensures DueSum(calls, l) == 0 && CallsOn(calls, l.day) == 0
  {
    if calls != [] {
      DueSumZero(calls[..|calls| - 1], l);
    }
  }

  lemma {:induction false} DueSumOne(calls: seq<Call>, l: Ledger, m: Ledger, k: nat)
    requires k < |calls| && forall i :: 0 <= i < |calls| && i != k ==> Due(calls[i], m) == Due(calls[i], l)
    ensures DueSum(calls, m) - DueSum(calls, l) == Due(calls[k], m) - Due(calls[k], l)
  {
    var last := |calls| - 1;
    if k == last {
      DueSumSame(calls[..last], l, m);
    } else {
      DueSumOne(calls[..last], l, m, k);
    }
  }

  lemma {:induction false} UsedIsDue(calls: seq<Call>, l: Ledger)
    requires forall i :: 0 <= i < |calls| ==> calls[i].reserved > 0
    ensures UsedOn(calls, l.day) <= DueSum(calls, l)
  {
    if calls != [] {
      UsedIsDue(calls[..|calls| - 1], l);
    }
  }

  /** A day that begins has an empty ledger, and no call has been dispatched on it. */
  lemma {:induction false} RolledAccount(l: Ledger, calls: seq<Call>, day: Day)
    requires Account(l, calls) && day >= l.day && day != NO_DAY
    ensures Account(Rolled(l, day), calls) && ValidLedger(Rolled(l, day))
  {
    if l.day != day {
      DueSumZero(calls, Rolled(l, day));
    }
  }

  /** Booking one more call accounts for the calls so far, and for the one that is about to be
      dispatched. */
  lemma {:induction false} BookedAccount(l: Ledger, calls: seq<Call>, limits: Limits, used: nat)
    requires Account(l, calls) && ValidLedger(l) && LimitsOk(limits) && Admits(l, limits)
    ensures var b := Booked(l, limits);
            var c := Call(Id(l.day, b.next), limits.reservation, used, limits);
            && ValidLedger(b) && Account(b, calls) && Account(b, calls + [c]) && b.tokens <= limits.dailyTokens
            && (forall i :: 0 <= i < |calls| ==> calls[i].id != c.id)
            && Admitted(calls + [c], |calls|)
  {
    BookingKeepsLedger(l, limits);
    var b := Booked(l, limits);
    var c := Call(Id(l.day, b.next), limits.reservation, used, limits);
    DueSumSame(calls, l, b);
    var longer := calls + [c];
    assert longer[..|longer| - 1] == calls && longer[..|calls| + 1] == longer;
    UsedIsDue(longer, b);
  }

  /** Settling the call that is flying. */
  lemma {:induction false} SettledAccount(l: Ledger, calls: seq<Call>, limits: Limits, k: nat)
    requires Account(l, calls) && DistinctCalls(calls) && LimitsOk(limits)
    requires k < |calls| && calls[k].id in l.pending && l.tokens <= limits.dailyTokens
    ensures var s := Settled(l, limits, calls[k].id, calls[k].used); ValidLedger(s) && Account(s, calls)
  {
    var c := calls[k];
    var s := Settled(l, limits, c.id, c.used);
    assert Known(c, l);
    SettlingKeepsLedger(l, limits, c.id, c.used);
    forall i | 0 <= i < |calls| && i != k
      ensures Due(calls[i], s) == Due(calls[i], l)
    {
      assert calls[i].id != c.id;
    }
    DueSumOne(calls, l, s, k);
    forall i | 0 <= i < |calls|
      ensures Known(calls[i], s)
    {
      assert Known(calls[i], l);
    }
  }

  // ---------------------------------------------------------------- runs

  lemma {:induction false} BeginKeeps(w: World, day: Day, used: nat, fault: Fault)
    requires Good(w)
    ensures Good(Next(w, Begin(day, used, fault)))
  {
    if w.process.Some? && w.process.value.flying.None? && day != NO_DAY && w.process.value.ledger.day <= day {
      var p := w.process.value;
      RolledAccount(p.ledger, w.calls, day);
      var rolled := Rolled(p.ledger, day);
      if Admits(rolled, p.limits) {
        BookedAccount(rolled, w.calls, p.limits, used);
        AllAdmitted(w.calls, Call(Id(day, Booked(rolled, p.limits).next), p.limits.reservation, used, p.limits));
      }
    }
  }

  lemma {:induction false} AllAdmitted(calls: seq<Call>, c: Call)
    requires (forall i :: 0 <= i < |calls| ==> Admitted(calls, i)) && Admitted(calls + [c], |calls|)
    ensures forall i :: 0 <= i <= |calls| ==> Admitted(calls + [c], i)
  {
    forall i | 0 <= i < |calls|
      ensures Admitted(calls + [c], i)
    {
      assert Admitted(calls, i);
      assert (calls + [c])[..i + 1] == calls[..i + 1];
    }
  }

  lemma {:induction false} FinishKeeps(w: World, known: bool, fault: Fault)
    requires Good(w)
    ensures Good(Next(w, Finish(known, fault)))
  {
    if w.process.Some? && w.process.value.flying.Some? {
      var p := w.process.value;
      SettledAccount(p.ledger, w.calls, p.limits, p.flying.value);
    }
  }

  lemma {:induction false} StepKeeps(w: World, e: Event)
    requires Good(w)
    ensures Good(Next(w, e))
  {
    match e
    case Start(limits) =>
      if w.disk.None? {
        assert Account(EMPTY, []);
      }
    case Crash =>
    case Begin(day, used, fault) => BeginKeeps(w, day, used, fault);
    case Finish(known, fault) => FinishKeeps(w, known, fault);
  }

  lemma {:induction false} RunIsGood(events: seq<Event>)
    ensures Good(Run(FRESH, events))
    decreases |events|
  {
    if events != [] {
      RunIsGood(events[..|events| - 1]);
      StepKeeps(Run(FRESH, events[..|events| - 1]), events[|events| - 1]);
    }
  }

  /** In every run, every ledger that was ever written is valid, so the program never refuses its own
      file, and it accounts for at least what the calls of its day have used. */
  lemma {:induction false} LedgerCoversUsage(events: seq<Event>)
    ensures var w := Run(FRESH, events);
            w.disk.Some? ==>
              && ValidLedger(w.disk.value) && InRange(w.disk.value)
              && UsedOn(w.calls, w.disk.value.day) <= w.disk.value.tokens
              && CallsOn(w.calls, w.disk.value.day) <= w.disk.value.calls
  {
    RunIsGood(events);
    var w := Run(FRESH, events);
    if w.disk.Some? {
      assert forall i :: 0 <= i < |w.calls| ==> Known(w.calls[i], w.disk.value);
      UsedIsDue(w.calls, w.disk.value);
    }
  }

  /** In every run, whenever a call was dispatched, the calls of its day up to it were no more than the
      daily calls, and those of them that stayed within their reservations used no more than the daily
      tokens. No two calls have the same id. */
  lemma {:induction false} DailyLimitsHold(events: seq<Event>, i: nat)
    requires i < |Run(FRESH, events).calls|
    ensures Admitted(Run(FRESH, events).calls, i) && DistinctCalls(Run(FRESH, events).calls)
  {
    RunIsGood(events);
  }

  /** The day of the file never goes back, and neither does the day in memory while the program runs. */
  lemma {:induction false} DayNeverGoesBack(events: seq<Event>, e: Event)
    ensures var w := Run(FRESH, events);
            var n := Next(w, e);
            && (w.disk.Some? ==> n.disk.Some? && w.disk.value.day <= n.disk.value.day)
            && (w.process.Some? && n.process.Some? && !e.Start? ==> w.process.value.ledger.day <= n.process.value.ledger.day)
  {
    RunIsGood(events);
  }

  /** A call is never dispatched while another one is flying, and never before its reservation is in
      the file. */
  lemma {:induction false} OneAtATime(events: seq<Event>, e: Event)
    ensures var w := Run(FRESH, events);
            var n := Next(w, e);
            |n.calls| > |w.calls| ==>
              && e.Begin? && w.process.Some? && w.process.value.flying.None? && n.process.value.flying == Some(|w.calls|)
              && n.calls == w.calls + [n.calls[|w.calls|]]
              && n.disk.Some? && n.calls[|w.calls|].id in n.disk.value.pending
              && n.disk.value.pending[n.calls[|w.calls|].id] == n.calls[|w.calls|].reserved
  {
    RunIsGood(events);
  }

  // ---------------------------------------------------------------- when a call is dispatched

  /** A call is dispatched exactly when the queue is empty, the clock has not gone back, the day has room
      for one more call and its reservation, and the booking is saved. A day that begins has room. */
  lemma {:induction false} DispatchedIff(events: seq<Event>, day: Day, used: nat, fault: Fault)
    requires Run(FRESH, events).process.Some?
    ensures var w := Run(FRESH, events);
            var l, limits := w.process.value.ledger, w.process.value.limits;
            |Next(w, Begin(day, used, fault)).calls| > |w.calls| <==>
              && w.process.value.flying.None? && day != NO_DAY && l.day <= day && fault.Works?
              && (l.day < day || (l.calls < limits.dailyCalls && l.tokens + limits.reservation <= limits.dailyTokens))
  {
    RunIsGood(events);
  }

  // ---------------------------------------------------------------- nothing is lost

  /** What the calls of the ledger's day have used that are not pending any more. */
  function SettledUse(calls: seq<Call>, l: Ledger): nat {
    if calls == [] then 0
    else
      var c := calls[|calls| - 1];
      SettledUse(calls[..|calls| - 1], l) + if c.id.day == l.day && c.id !in l.pending then c.used else 0
  }

  /** No call of the ledger's day has been settled with more than it had reserved. */
  ghost predicate NoOverrun(calls: seq<Call>, l: Ledger) {
    forall i :: 0 <= i < |calls| && calls[i].id.day == l.day && calls[i].id !in l.pending ==> Within(calls[i])
  }

  /** The tokens are what is reserved and what has been used, and not one more. */
  ghost predicate Exact(l: Ledger, calls: seq<Call>) {
    NoOverrun(calls, l) ==> l.tokens == Total(l.pending) + SettledUse(calls, l)
  }

  ghost predicate AllExact(w: World) {
    && (w.disk.Some? ==> Exact(w.disk.value, w.calls))
    && (w.process.Some? ==> Exact(w.process.value.ledger, w.calls))
  }

  lemma {:induction false} UseSame(calls: seq<Call>, l: Ledger, m: Ledger)
    requires l.day == m.day && forall i :: 0 <= i < |calls| ==> (calls[i].id in m.pending <==> calls[i].id in l.pending)
    ensures SettledUse(calls, m) == SettledUse(calls, l)
    ensures NoOverrun(calls, m) <==> NoOverrun(calls, l)
  {
    if calls != [] {
      UseSame(calls[..|calls| - 1], l, m);
      assert forall i :: 0 <= i < |calls| ==> (calls[i].id !in m.pending <==> calls[i].id !in l.pending);
    }
  }

  lemma {:induction false} UseZero(calls: seq<Call>, l: Ledger)
    requires forall i :: 0 <= i < |calls| ==> calls[i].id.day != l.day
    ensures SettledUse(calls, l) == 0
  {
    if calls != [] {
      UseZero(calls[..|calls| - 1], l);
    }
  }

  lemma {:induction false} UseOne(calls: seq<Call>, l: Ledger, k: nat)
    requires DistinctCalls(calls) && k < |calls| && calls[k].id in l.pending && calls[k].id.day == l.day
    ensures var m := l.(pending := l.pending - {calls[k].id});
            SettledUse(calls, m) == SettledUse(calls, l) + calls[k].used
  {
    var last := |calls| - 1;
    var m := l.(pending := l.pending - {calls[k].id});
    var front := calls[..last];
    assert DistinctCalls(front) by {
      forall i, j | 0 <= i < j < |front|
        ensures front[i].id != front[j].id
      {
        assert calls[i].id != calls[j].id;
      }
    }
    if k == last {
      forall i | 0 <= i < |front|
        ensures front[i].id in m.pending <==> front[i].id in l.pending
      {
        assert calls[i].id != calls[k].id;
      }
      UseSame(front, l, m);
    } else {
      assert calls[k].id != calls[last].id;
      UseOne(front, l, k);
    }
  }

  /** A day that begins has nothing reserved and nothing used. */
  lemma {:induction false} RolledExact(l: Ledger, calls: seq<Call>, day: Day)
    requires Account(l, calls) && Exact(l, calls) && day >= l.day
    ensures Exact(Rolled(l, day), calls)
  {
    if l.day != day {
      UseZero(calls, Rolled(l, day));
    }
  }

  lemma {:induction false} BookedExact(l: Ledger, calls: seq<Call>, limits: Limits, used: nat)
    requires Account(l, calls) && Exact(l, calls) && InRange(l) && l.calls < limits.dailyCalls && LimitsOk(limits)
    ensures var b := Booked(l, limits);
            var c := Call(Id(l.day, b.next), limits.reservation, used, limits);
            Exact(b, calls) && Exact(b, calls + [c])
  {
    var b := Booked(l, limits);
    NewId(l, calls, limits);
    TotalWith(l.pending, Id(l.day, b.next), limits.reservation);
    assert l.pending - {Id(l.day, b.next)} == l.pending;
    UseSame(calls, l, b);
    PendingCall(calls, b, Call(Id(l.day, b.next), limits.reservation, used, limits));
  }

  /** The id of a booking is neither pending nor the id of a call. */
  lemma {:induction false} NewId(l: Ledger, calls: seq<Call>, limits: Limits)
    requires Account(l, calls) && l.calls < limits.dailyCalls && LimitsOk(limits)
    ensures var id := Id(l.day, Booked(l, limits).next);
            id !in l.pending && forall i :: 0 <= i < |calls| ==> calls[i].id != id
  {
    assert forall i :: 0 <= i < |calls| ==> Known(calls[i], l);
  }

  lemma {:induction false} PendingCall(calls: seq<Call>, l: Ledger, c: Call)
    requires c.id in l.pending
    ensures SettledUse(calls + [c], l) == SettledUse(calls, l)
    ensures NoOverrun(calls + [c], l) ==> NoOverrun(calls, l)
  {
    assert (calls + [c])[..|calls|] == calls;
    assert forall i :: 0 <= i < |calls| ==> (calls + [c])[i] == calls[i];
  }

  lemma {:induction false} SettledExact(l: Ledger, calls: seq<Call>, limits: Limits, k: nat)
    requires Account(l, calls) && Exact(l, calls) && DistinctCalls(calls) && k < |calls| && calls[k].id in l.pending && l != EMPTY
    ensures Exact(Settled(l, limits, calls[k].id, calls[k].used), calls)
  {
    var s := Settled(l, limits, calls[k].id, calls[k].used);
    assert Known(calls[k], l);
    TotalWithout(l.pending, calls[k].id);
    UseOne(calls, l, k);
    UseSame(calls, l.(pending := l.pending - {calls[k].id}), s);
    if NoOverrun(calls, s) {
      assert Within(calls[k]);
      assert NoOverrun(calls, l);
    }
  }

  lemma {:induction false} StepKeepsExact(w: World, e: Event)
    requires Good(w) && AllExact(w)
    ensures AllExact(Next(w, e))
  {
    match e
    case Start(limits) =>
    case Crash =>
    case Begin(day, used, fault) =>
      if w.process.Some? && w.process.value.flying.None? && day != NO_DAY && w.process.value.ledger.day <= day {
        var p := w.process.value;
        RolledAccount(p.ledger, w.calls, day);
        RolledExact(p.ledger, w.calls, day);
        var rolled := Rolled(p.ledger, day);
        if Admits(rolled, p.limits) {
          BookedExact(rolled, w.calls, p.limits, used);
        }
      }
    case Finish(known, fault) =>
      if w.process.Some? && w.process.value.flying.Some? {
        var p := w.process.value;
        SettledExact(p.ledger, w.calls, p.limits, p.flying.value);
      }
  }

  lemma {:induction false} RunIsExact(events: seq<Event>)
    ensures Good(Run(FRESH, events)) && AllExact(Run(FRESH, events))
    decreases |events|
  {
    if events != [] {
      RunIsExact(events[..|events| - 1]);
      StepKeeps(Run(FRESH, events[..|events| - 1]), events[|events| - 1]);
      StepKeepsExact(Run(FRESH, events[..|events| - 1]), events[|events| - 1]);
    } else {
      assert Good(FRESH);
    }
  }

  /** In every run the tokens in the file and in memory are exactly what is reserved there and what the
      settled calls of the day have used, as long as none of them used more than it had reserved. So what
      a call leaves unused is given back, and given back once. */
  lemma {:induction false} TokensAreConserved(events: seq<Event>)
    ensures var w := Run(FRESH, events);
            && (w.disk.Some? && NoOverrun(w.calls, w.disk.value) ==>
                  w.disk.value.tokens == Total(w.disk.value.pending) + SettledUse(w.calls, w.disk.value))
            && (w.process.Some? && NoOverrun(w.calls, w.process.value.ledger) ==>
                  w.process.value.ledger.tokens == Total(w.process.value.ledger.pending) + SettledUse(w.calls, w.process.value.ledger))
  {
    RunIsExact(events);
  }

  // ---------------------------------------------------------------- after an overrun

  /** The day is over, or its tokens are used up and no call is flying that could give some back. */
  ghost predicate UsedUp(w: World, day: Day) {
    w.process.Some? ==>
      var p := w.process.value;
      && LimitsOk(p.limits)
      && (p.ledger.day > day || (p.flying.None? && p.ledger.day == day && p.ledger.tokens == p.limits.dailyTokens))
  }

  predicate NoStart(events: seq<Event>) {
    forall i :: 0 <= i < |events| ==> !events[i].Start?
  }

  ghost function Steps(w: World, events: seq<Event>): World
    decreases |events|
  {
    if events == [] then w else Steps(Next(w, events[0]), events[1..])
  }

  /** A call that is known to have used more than it had reserved ends the day, once that is saved: until
      the program is started again no other call of the day is dispatched. */
  lemma {:induction false} OverrunEndsTheDay(events: seq<Event>, fault: Fault, later: seq<Event>)
    requires NoStart(later) && fault.Works?
    requires var w := Run(FRESH, events);
             && w.process.Some? && w.process.value.flying.Some? && w.process.value.flying.value < |w.calls|
             && !Within(w.calls[w.process.value.flying.value])
    ensures var w := Run(FRESH, events);
            var u := Steps(Next(w, Finish(true, fault)), later);
            && |w.calls| <= |u.calls|
            && forall i :: |w.calls| <= i < |u.calls| ==> u.calls[i].id.day != w.calls[w.process.value.flying.value].id.day
  {
    RunIsGood(events);
    var w := Run(FRESH, events);
    var c := w.calls[w.process.value.flying.value];
    var n := Next(w, Finish(true, fault));
    assert Known(c, w.process.value.ledger);
    DayStaysUsedUp(n, later, c.id.day);
  }

  lemma {:induction false} StepStaysUsedUp(w: World, e: Event, day: Day)
    requires UsedUp(w, day) && !e.Start?
    ensures UsedUp(Next(w, e), day)
    ensures w.calls <= Next(w, e).calls && forall i :: |w.calls| <= i < |Next(w, e).calls| ==> Next(w, e).calls[i].id.day != day
  {
  }

  lemma {:induction false} DayStaysUsedUp(w: World, events: seq<Event>, day: Day)
    requires UsedUp(w, day) && NoStart(events)
    ensures w.calls <= Steps(w, events).calls
    ensures forall i :: |w.calls| <= i < |Steps(w, events).calls| ==> Steps(w, events).calls[i].id.day != day
    decreases |events|
  {
    if events != [] {
      var n := Next(w, events[0]);
      StepStaysUsedUp(w, events[0], day);
      DayStaysUsedUp(n, events[1..], day);
      forall i | |w.calls| <= i < |Steps(w, events).calls|
        ensures Steps(w, events).calls[i].id.day != day
      {
        if i < |n.calls| {
          assert Steps(w, events).calls[i] == n.calls[i];
        }
      }
    }
  }
}
