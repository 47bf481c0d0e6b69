/** The budget as the program runs it: fields that calls update in place, and a file. */
module BudgetStore {
  import opened Faults
  import opened Options
  import opened BudgetLedger
  import opened BudgetRuns

  /** The directory with the ledger file. `faults` says how the next saves go. */
  class Directory {
    var ledger: Option<Ledger>
    var faults: seq<Fault>

    constructor (ledger: Option<Ledger>, faults: seq<Fault>)
      ensures this.ledger == ledger && this.faults == faults
    {
      this.ledger, this.faults := ledger, faults;
    }

    function NextFault(): Fault
      reads this
    {
      if faults == [] then Works else faults[0]
    }

    method Save(l: Ledger) returns (ok: bool)
      modifies this
      ensures ok == old(NextFault()).Works?
      ensures ledger == if old(NextFault()).LostBefore? then old(ledger) else Some(l)
      ensures faults == if old(faults) == [] then [] else old(faults)[1..]
    {
      ok := NextFault().Works?;
      if NextFault() != LostBefore {
        ledger := Some(l);
      }
      faults := if faults == [] then [] else faults[1..];
    }
  }

  class Reservation {
    const id: Id
    var finished: bool

    constructor (id: Id)
      ensures this.id == id && !finished
    {
      this.id, finished := id, false;
    }
  }

  /** The budget of the running program. `busy` is the one place in the queue. */
  class Budget {
    const limits: Limits
    const directory: Directory
    var day: Day
    var calls: int
    var tokens: int
    var next: int
    var pending: map<Id, int>
    var busy: bool

    function State(): Ledger
      reads this
    {
      Ledger(day, calls, tokens, next, pending)
    }

    /** The ledger with which a program starts, if the file is one it can use. */
    constructor (limits: Limits, directory: Directory, l: Ledger)
      ensures this.limits == limits && this.directory == directory && State() == l && !busy
    {
      this.limits, this.directory := limits, directory;
      day, calls, tokens, next, pending := l.day, l.calls, l.tokens, l.next, l.pending;
      busy := false;
    }

    static method Open(limits: Limits, directory: Directory) returns (b: Budget?)
      ensures b != null <==> LimitsOk(limits) && (directory.ledger.Some? ==> ValidLedger(directory.ledger.value))
      ensures b != null ==>
                && fresh(b) && b.limits == limits && b.directory == directory && !b.busy
                && b.State() == if directory.ledger.Some? then directory.ledger.value else EMPTY
    {
      if !LimitsOk(limits) {
        return null;
      }
      var l := EMPTY;
      if directory.ledger.Some? {
        l := directory.ledger.value;
        var valid := CheckLedger(l);
        if !valid {
          return null;
        }
      }
      b := new Budget(limits, directory, l);
    }

    /** Asks for a call. Never waits: while another call is flying it is refused. */
    method Begin(today: Day) returns (r: Reservation?)
      modifies this, directory
      ensures old(busy) ==> r == null && State() == old(State()) && busy && directory.ledger == old(directory.ledger)
      ensures !old(busy) ==>
                && var began := BeginCall(old(State()), old(directory.ledger), limits, today, old(directory.NextFault()));
                   && State() == began.ledger && directory.ledger == began.disk
                   && (r != null <==> began.id.Some?) && busy == (r != null)
                   && (r != null ==> fresh(r) && began.id == Some(r.id) && !r.finished)
    {
      if busy {
        return null;
      }
      busy := true;
      if day > today {
        busy := false;
        return null;
      }
      if day != today {
        day, calls, tokens, next, pending := today, 0, 0, 0, map[];
      }
      if calls >= limits.dailyCalls || tokens > limits.dailyTokens - limits.reservation {
        busy := false;
        return null;
      }
      next := (next + 1) % UINT64_LIMIT;
      var id := Id(today, next);
      calls := calls + 1;
      tokens := tokens + limits.reservation;
      pending := pending[id := limits.reservation];
      var ok := directory.Save(State());
      if !ok {
        busy := false;
        return null;
      }
      r := new Reservation(id);
    }

    /** Reports the usage of a call, if it is known, and leaves the queue. Reporting twice changes
        nothing. */
    method Finish(r: Reservation, used: int, known: bool)
      modifies this, directory, r
      ensures r.finished
      ensures old(r.finished) ==> State() == old(State()) && busy == old(busy) && directory.ledger == old(directory.ledger)
      ensures !old(r.finished) ==>
                && !busy
                && (State(), directory.ledger)
                   == FinishCall(old(State()), old(directory.ledger), limits, r.id, used, known, old(directory.NextFault()))
    {
      if r.finished {
        return;
      }
      r.finished := true;
      if r.id in pending && known && used >= 0 {
        var reserved, oldTokens := pending[r.id], tokens;
        ghost var oldPending := pending;
        if used > reserved {
          tokens := limits.dailyTokens;
        } else {
          tokens := tokens - (reserved - used);
        }
        pending := pending - {r.id};
        var ok := directory.Save(State());
        if !ok {
          tokens := oldTokens;
          pending := pending[r.id := reserved];
          assert pending == oldPending;
        }
      }
      busy := false;
    }
  }
}
