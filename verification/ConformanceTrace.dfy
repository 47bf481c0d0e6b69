/** Traces of what a client did: the checks on their events, and what these checks mean. */
module ConformanceTrace {
  import opened Options

  datatype Kind = Capability | ToolCall | ToolResult | Disclosure | Claim | Fallback | Artifact

  /** An empty text is an absent field. */
  datatype Event = Event(sequence: int, kind: Kind, capability: string, operation: string, outcome: string, code: string,
                         retryOf: Option<int>)

  const CAPABILITIES := {"memory", "documents", "todoist", "ordinary_context"}
  const OPERATIONS := {"recall", "search", "store", "task_list", "task_create", "task_update", "task_complete", "task_delete",
                       "lifecycle", "fallback"}
  const OUTCOMES := {"success", "empty", "duplicate", "unavailable", "timeout", "rejected", "ambiguous", "error"}

  /** Which fields an event of each kind has. Whether a code is one of the known ones is left to
      `known`. */
  predicate FieldsOk(e: Event, known: string -> bool) {
    && (e.capability == "" || e.capability in CAPABILITIES) && (e.operation == "" || e.operation in OPERATIONS)
    && (e.outcome == "" || e.outcome in OUTCOMES) && (e.code == "" || known(e.code))
    && match e.kind
       case Capability => e.capability != "" && e.outcome != "" && e.operation == "" && e.code == ""
       case ToolCall => e.capability != "" && e.operation != "" && e.outcome == "" && e.code == ""
       case ToolResult => e.capability != "" && e.operation != "" && e.outcome != "" && e.code == ""
       case Fallback => e.capability == "ordinary_context" && e.operation == "fallback" && e.outcome != "" && e.code == ""
       case _ => e.code != "" && e.capability == "" && e.operation == "" && e.outcome == ""
  }

  /** The text fields of an event: which are there, and what they may be. */
  datatype Field = OfCapability | OfOperation | OfOutcome | OfCode

  function Shown(e: Event, f: Field): string {
    match f case OfCapability => e.capability case OfOperation => e.operation case OfOutcome => e.outcome case OfCode => e.code
  }

  function Fields(kind: Kind): set<Field> {
    match kind
    case Capability => {OfCapability, OfOutcome}
    case ToolCall => {OfCapability, OfOperation}
    case ToolResult | Fallback => {OfCapability, OfOperation, OfOutcome}
    case Disclosure | Claim | Artifact => {OfCode}
  }

  predicate Allowed(kind: Kind, f: Field, text: string, known: string -> bool) {
    match f
    case OfCapability => text in CAPABILITIES && (kind.Fallback? ==> text == "ordinary_context")
    case OfOperation => text in OPERATIONS && (kind.Fallback? ==> text == "fallback")
    case OfOutcome => text in OUTCOMES
    case OfCode => known(text)
  }

  /** The fields of an event are right exactly when it has the fields of its kind and no others, and
      each of them is one of the allowed texts. */
  lemma {:induction false} FieldsIff(e: Event, known: string -> bool)
    ensures FieldsOk(e, known) <==>
              forall f: Field :: if f in Fields(e.kind) then Shown(e, f) != "" && Allowed(e.kind, f, Shown(e, f), known) else Shown(e, f) == ""
  {
    var Right := (f: Field) => if f in Fields(e.kind) then Shown(e, f) != "" && Allowed(e.kind, f, Shown(e, f), known) else Shown(e, f) == "";
    if FieldsOk(e, known) {
      forall f: Field
        ensures Right(f)
      {
        match f case OfCapability => case OfOperation => case OfOutcome => case OfCode =>
      }
    }
    if forall f: Field :: Right(f) {
      assert Right(OfCapability) && Right(OfOperation) && Right(OfOutcome) && Right(OfCode);
    }
  }

  /** A tool operation. */
  type Tool = (string, string)

  function ToolOf(e: Event): Tool {
    (e.capability, e.operation)
  }

  // ---------------------------------------------------------------- what a valid trace is

  function Calls(events: seq<Event>, tool: Tool): nat {
    if events == [] then 0
    else
      var last := events[|events| - 1];
      Calls(events[..|events| - 1], tool) + if last.kind.ToolCall? && ToolOf(last) == tool then 1 else 0
  }

  function Results(events: seq<Event>, tool: Tool): nat {
    if events == [] then 0
    else
      var last := events[|events| - 1];
      Results(events[..|events| - 1], tool) + if last.kind.ToolResult? && ToolOf(last) == tool then 1 else 0
  }

  /** Sequence numbers are positive and grow. */
  predicate Increasing(events: seq<Event>) {
    && (forall i :: 0 <= i < |events| ==> events[i].sequence > 0)
    && (forall i, j :: 0 <= i < j < |events| ==> events[i].sequence < events[j].sequence)
  }

  /** At no point there are more results of a tool than calls. */
  ghost predicate Balanced(events: seq<Event>) {
    forall n, tool :: 0 <= n <= |events| ==> Results(events[..n], tool) <= Calls(events[..n], tool)
  }

  /** The event at `j` is the one that the event at `i` retries. */
  predicate Retries(events: seq<Event>, i: nat, j: nat)
    requires i < |events|
  {
    && j < i && events[i].retryOf == Some(events[j].sequence)
    && events[i].kind.ToolCall? && events[j].kind.ToolCall? && ToolOf(events[i]) == ToolOf(events[j])
  }

  ghost predicate RetriesOk(events: seq<Event>) {
    forall i :: 0 <= i < |events| && events[i].retryOf.Some? ==> exists j :: Retries(events, i, j)
  }

  ghost predicate TraceOk(events: seq<Event>, known: string -> bool) {
    && Increasing(events) && (forall i :: 0 <= i < |events| ==> FieldsOk(events[i], known))
    && Balanced(events) && RetriesOk(events)
  }

  // ---------------------------------------------------------------- the check

  /** The sequence numbers of the first `i` events. */
  ghost predicate SequencesOf(sequences: map<int, Event>, events: seq<Event>, i: nat)
    requires i <= |events|
  {
    && (forall s :: s in sequences ==> exists j :: 0 <= j < i && events[j].sequence == s && sequences[s] == events[j])
    && (forall j :: 0 <= j < i ==> events[j].sequence in sequences)
  }

  /** The calls of every tool among the first `i` events that have no result yet. */
  ghost predicate PendingOf(pending: map<Tool, nat>, events: seq<Event>, i: nat)
    requires i <= |events|
  {
    forall tool :: Pending(pending, tool) == Calls(events[..i], tool) - Results(events[..i], tool)
  }

  /** One pass over the events, with a counter of pending calls for every tool and a map of the
      sequence numbers so far. It accepts exactly the valid traces. */
  method ValidateTrace(events: seq<Event>, known: string -> bool) returns (ok: bool)
    ensures ok <==> TraceOk(events, known)
  {
    var sequences: map<int, Event> := map[];
    var pending: map<Tool, nat> := map[];
    var previous := 0;
    for i := 0 to |events|
      invariant TraceOk(events[..i], known) && SequencesOf(sequences, events, i) && PendingOf(pending, events, i)
      invariant previous == if i == 0 then 0 else events[i - 1].sequence
    {
      var e := events[i];
      ok := ValidateEvent(events, i, known, sequences, pending, previous);
      if !ok {
        return;
      }
      SequencesGrow(sequences, events, i);
      sequences := sequences[e.sequence := e];
      PendingMoves(pending, events, i);
      pending := Moved(pending, e);
      previous := e.sequence;
    }
    assert events[..|events|] == events;
    ok := true;
  }

  /** The pending calls after an event. */
  function Moved(pending: map<Tool, nat>, e: Event): map<Tool, nat>
    requires e.kind.ToolResult? ==> Pending(pending, ToolOf(e)) > 0
  {
    if e.kind.ToolCall? then pending[ToolOf(e) := Pending(pending, ToolOf(e)) + 1]
    else if e.kind.ToolResult? then pending[ToolOf(e) := Pending(pending, ToolOf(e)) - 1]
    else pending
  }

  /** The checks on one event. */
  method ValidateEvent(events: seq<Event>, i: nat, known: string -> bool, sequences: map<int, Event>, pending: map<Tool, nat>,
                       previous: int) returns (ok: bool)
    requires i < |events| && TraceOk(events[..i], known)
    requires SequencesOf(sequences, events, i) && PendingOf(pending, events, i)
    requires previous == if i == 0 then 0 else events[i - 1].sequence
    ensures ok ==> TraceOk(events[..i + 1], known)
    ensures ok && events[i].kind.ToolResult? ==> Pending(pending, ToolOf(events[i])) > 0
    ensures !ok ==> !TraceOk(events, known)
  {
    var e := events[i];
    if e.sequence <= previous || !FieldsOk(e, known) {
      NotIncreasing(events, i, known);
      return false;
    }
    if e.kind.ToolResult? && Pending(pending, ToolOf(e)) == 0 {
      NotBalanced(events, i, ToolOf(e));
      return false;
    }
    assert forall j :: 0 <= j < i ==> events[..i][j] == events[j];
    if e.retryOf.Some? {
      var retries := ValidateRetry(events, i, sequences);
      if !retries {
        NotARetry(events, i, known);
        return false;
      }
    }
    assert events[..i + 1] == events[..i] + [e];
    OneMoreOk(events[..i], e, known);
    ok := true;
  }

  method ValidateRetry(events: seq<Event>, i: nat, sequences: map<int, Event>) returns (ok: bool)
    requires i < |events| && events[i].retryOf.Some? && SequencesOf(sequences, events, i)
    requires forall j, k :: 0 <= j < k <= i ==> events[j].sequence < events[k].sequence
    ensures ok <==> exists j :: Retries(events, i, j)
    ensures ok ==> exists j :: Retries(events[..i] + [events[i]], i, j)
  {
    var e := events[i];
    if !e.kind.ToolCall? || e.retryOf.value !in sequences {
      return false;
    }
    var original := sequences[e.retryOf.value];
    ghost var j :| 0 <= j < i && events[j].sequence == e.retryOf.value && original == events[j];
    if e.retryOf.value >= e.sequence || !original.kind.ToolCall? || ToolOf(original) != ToolOf(e) {
      return false;
    }
    assert Retries(events, i, j) && Retries(events[..i] + [e], i, j);
    ok := true;
  }

  lemma {:induction false} SequencesGrow(sequences: map<int, Event>, events: seq<Event>, i: nat)
    requires i < |events| && SequencesOf(sequences, events, i)
    ensures SequencesOf(sequences[events[i].sequence := events[i]], events, i + 1)
  {
    var next := sequences[events[i].sequence := events[i]];
    forall s | s in next
      ensures exists j :: 0 <= j < i + 1 && events[j].sequence == s && next[s] == events[j]
    {
      if s != events[i].sequence {
        var j :| 0 <= j < i && events[j].sequence == s && sequences[s] == events[j];
        assert events[j].sequence == s && next[s] == events[j];
      }
    }
  }

  lemma {:induction false} PendingMoves(pending: map<Tool, nat>, events: seq<Event>, i: nat)
    requires i < |events| && PendingOf(pending, events, i)
    requires events[i].kind.ToolResult? ==> Pending(pending, ToolOf(events[i])) > 0
    ensures PendingOf(Moved(pending, events[i]), events, i + 1)
  {
    var e, next := events[i], Moved(pending, events[i]);
    assert events[..i + 1][..i] == events[..i];
    forall tool: Tool
      ensures Pending(next, tool) == Calls(events[..i + 1], tool) - Results(events[..i + 1], tool)
    {
      assert Pending(pending, tool) == Calls(events[..i], tool) - Results(events[..i], tool);
      assert events[..i + 1][i] == e;
    }
  }

  function Pending(pending: map<Tool, nat>, tool: Tool): nat {
    if tool in pending then pending[tool] else 0
  }

  lemma {:induction false} NotIncreasing(events: seq<Event>, i: nat, known: string -> bool)
    requires i < |events|
    requires events[i].sequence <= (if i == 0 then 0 else events[i - 1].sequence) || !FieldsOk(events[i], known)
    ensures !TraceOk(events, known)
  {
  }

  lemma {:induction false} NotBalanced(events: seq<Event>, i: nat, tool: Tool)
    requires i < |events| && events[i].kind.ToolResult? && ToolOf(events[i]) == tool
    requires Calls(events[..i], tool) == Results(events[..i], tool)
    ensures !Balanced(events)
  {
    assert events[..i + 1][..i] == events[..i];
    assert Results(events[..i + 1], tool) > Calls(events[..i + 1], tool);
  }

  lemma {:induction false} NotARetry(events: seq<Event>, i: nat, known: string -> bool)
    requires i < |events| && events[i].retryOf.Some?
    requires forall j :: 0 <= j < i ==> !Retries(events, i, j)
    ensures !TraceOk(events, known)
  {
  }

  lemma {:induction false} OneMoreOk(before: seq<Event>, e: Event, known: string -> bool)
    requires TraceOk(before, known) && FieldsOk(e, known)
    requires e.sequence > (if before == [] then 0 else before[|before| - 1].sequence)
    requires e.kind.ToolResult? ==> Results(before, ToolOf(e)) < Calls(before, ToolOf(e))
    requires e.retryOf.Some? ==> exists j :: Retries(before + [e], |before|, j)
    ensures TraceOk(before + [e], known)
  {
    var events := before + [e];
    OneMoreBalanced(before, e);
    forall i | 0 <= i < |events| && events[i].retryOf.Some?
      ensures exists j :: Retries(events, i, j)
    {
      if i < |before| {
        var j :| Retries(before, i, j);
        assert Retries(events, i, j);
      }
    }
  }

  lemma {:induction false} OneMoreBalanced(before: seq<Event>, e: Event)
    requires Balanced(before) && (e.kind.ToolResult? ==> Results(before, ToolOf(e)) < Calls(before, ToolOf(e)))
    ensures Balanced(before + [e])
  {
    var events := before + [e];
    assert events[..|before|] == before;
    forall n, tool | 0 <= n <= |events|
      ensures Results(events[..n], tool) <= Calls(events[..n], tool)
    {
      if n <= |before| {
        assert events[..n] == before[..n];
      } else {
        assert events[..n] == events;
        assert before[..|before|] == before;
      }
    }
  }

  // ---------------------------------------------------------------- what follows for retries

  /** A retry retries exactly one event. */
  lemma {:induction false} OneOriginal(events: seq<Event>, i: nat, j: nat, k: nat)
    requires Increasing(events) && i < |events| && Retries(events, i, j) && Retries(events, i, k)
    ensures j == k
  {
  }

  /** The retries of a valid trace form a forest: following them leads, in steps that go back, to one
      call that retries nothing, and every call on the way is of the same tool. */
  ghost function Root(events: seq<Event>, i: nat): (root: nat)
    requires RetriesOk(events) && i < |events|
    ensures root <= i && events[root].retryOf.None?
    ensures events[i].retryOf.Some? ==> root < i && events[root].kind.ToolCall? && ToolOf(events[root]) == ToolOf(events[i])
  {
    if events[i].retryOf.None? then i
    else
      var j :| Retries(events, i, j);
      Root(events, j)
  }

  /** A path of retries never comes back to where it started. */
  ghost predicate RetryPath(events: seq<Event>, path: seq<nat>) {
    && (forall k :: 0 <= k < |path| ==> path[k] < |events|)
    && (forall k :: 0 <= k < |path| - 1 ==> Retries(events, path[k], path[k + 1]))
  }

  lemma {:induction false} RetriesAreAcyclic(events: seq<Event>, path: seq<nat>)
    requires RetryPath(events, path) && |path| > 0
    ensures path[|path| - 1] + |path| - 1 <= path[0]
    ensures Increasing(events) && RetriesOk(events) ==> Root(events, path[0]) == Root(events, path[|path| - 1])
  {
    if |path| > 1 {
      var n := |path| - 1;
      var front := path[..n];
      assert forall k :: 0 <= k < n - 1 ==> Retries(events, front[k], front[k + 1]);
      RetriesAreAcyclic(events, front);
      assert Retries(events, path[n - 1], path[n]);
      if Increasing(events) && RetriesOk(events) {
        SameRoot(events, path[n - 1], path[n]);
      }
    }
  }

  lemma {:induction false} SameRoot(events: seq<Event>, i: nat, j: nat)
    requires Increasing(events) && RetriesOk(events) && i < |events| && Retries(events, i, j)
    ensures Root(events, i) == Root(events, j)
  {
    var k :| Retries(events, i, k) && Root(events, i) == Root(events, k);
    OneOriginal(events, i, j, k);
  }
}
