/** The verdict on one scenario, and the meaning of its assertions. */
module ConformanceScenario {
  import opened Options
  import opened ConformanceTrace
  import K = KeyOrder

  datatype Pattern = Pattern(kind: Kind, capability: string, operation: string, outcome: string, code: string)

  /** An empty field of a pattern matches everything. */
  predicate Matches(e: Event, p: Pattern) {
    && e.kind == p.kind
    && (p.capability == "" || e.capability == p.capability) && (p.operation == "" || e.operation == p.operation)
    && (p.outcome == "" || e.outcome == p.outcome) && (p.code == "" || e.code == p.code)
  }

  function Asked(p: Pattern, f: Field): string {
    match f case OfCapability => p.capability case OfOperation => p.operation case OfOutcome => p.outcome case OfCode => p.code
  }

  /** An event matches exactly when it has the kind and every text field that is asked for; and so a
      pattern that asks for all fields is matched by nothing but its own event. */
  lemma {:induction false} MatchesIff(e: Event, p: Pattern)
    ensures Matches(e, p) <==> e.kind == p.kind && forall f :: Asked(p, f) != "" ==> Shown(e, f) == Asked(p, f)
    ensures Matches(e, p) && (forall f :: Asked(p, f) != "") ==> p == Pattern(e.kind, e.capability, e.operation, e.outcome, e.code)
  {
    if e.kind == p.kind && forall f :: Asked(p, f) != "" ==> Shown(e, f) == Asked(p, f) {
      assert Asked(p, OfCapability) == "" || Shown(e, OfCapability) == Asked(p, OfCapability);
      assert Asked(p, OfOperation) == "" || Shown(e, OfOperation) == Asked(p, OfOperation);
      assert Asked(p, OfOutcome) == "" || Shown(e, OfOutcome) == Asked(p, OfOutcome);
      assert Asked(p, OfCode) == "" || Shown(e, OfCode) == Asked(p, OfCode);
    }
    if forall f :: Asked(p, f) != "" {
      assert Asked(p, OfCapability) != "" && Asked(p, OfOperation) != "" && Asked(p, OfOutcome) != "" && Asked(p, OfCode) != "";
    }
  }

  datatype CountAssertion = CountAssertion(pattern: Pattern, min: Option<int>, max: Option<int>)

  datatype OrderAssertion = OrderAssertion(before: Pattern, after: Pattern)

  datatype Alternative = Alternative(must: seq<Pattern>, ordered: seq<OrderAssertion>)

  datatype Scenario = Scenario(
    id: string,
    requiredObservations: seq<string>,
    must: seq<Pattern>,
    mustNot: seq<Pattern>,
    anyOf: seq<Alternative>,
    counts: seq<CountAssertion>,
    ordered: seq<OrderAssertion>,
    maxRetries: Option<int>)

  datatype Trace = Trace(contract: string, scenario: string, observed: seq<string>, events: seq<Event>)

  /** The reasons, in the order of their codes. */
  datatype Reason = AdapterError | ContractMismatch | EventCount | EventOrder | ForbiddenEvent | ObservationIncomplete
                  | RequiredMissing | RetryLimit | ScenarioUnknown

  function Rank(r: Reason): nat {
    match r
    case AdapterError => 0 case ContractMismatch => 1 case EventCount => 2 case EventOrder => 3 case ForbiddenEvent => 4
    case ObservationIncomplete => 5 case RequiredMissing => 6 case RetryLimit => 7 case ScenarioUnknown => 8
  }

  datatype Status = Pass | Fail | Inconclusive | Error

  datatype Verdict = Verdict(status: Status, reasons: seq<Reason>)

  function ReasonKey(r: Reason): K.Key {
    K.Key(Rank(r), "")
  }

  /** In the order of their codes, each once. */
  ghost predicate StrictlySorted(reasons: seq<Reason>) {
    K.StrictlySorted(reasons, ReasonKey)
  }

  // ---------------------------------------------------------------- the meaning of the assertions

  predicate Occurs(events: seq<Event>, p: Pattern) {
    exists i :: 0 <= i < |events| && Matches(events[i], p)
  }

  /** Both patterns occur, and every event of the later one has one of the earlier one before it. */
  predicate InOrder(events: seq<Event>, a: OrderAssertion) {
    && Occurs(events, a.before) && Occurs(events, a.after)
    && forall j :: 0 <= j < |events| && Matches(events[j], a.after) ==> exists i :: 0 <= i < j && Matches(events[i], a.before)
  }

  /** The positions of the matching events. */
  function Positions(events: seq<Event>, p: Pattern): set<nat> {
    set i: nat | i < |events| && Matches(events[i], p)
  }

  predicate CountHolds(events: seq<Event>, a: CountAssertion) {
    && (a.min.Some? ==> a.min.value <= |Positions(events, a.pattern)|)
    && (a.max.Some? ==> |Positions(events, a.pattern)| <= a.max.value)
  }

  function RetryPositions(events: seq<Event>): set<nat> {
    set i: nat | i < |events| && events[i].retryOf.Some?
  }

  predicate AllOccur(events: seq<Event>, patterns: seq<Pattern>) {
    forall i :: 0 <= i < |patterns| ==> Occurs(events, patterns[i])
  }

  predicate AllInOrder(events: seq<Event>, ordered: seq<OrderAssertion>) {
    forall i :: 0 <= i < |ordered| ==> InOrder(events, ordered[i])
  }

  predicate AlternativeHolds(events: seq<Event>, a: Alternative) {
    AllOccur(events, a.must) && AllInOrder(events, a.ordered)
  }

  predicate SomeAlternativeHolds(events: seq<Event>, alternatives: seq<Alternative>) {
    alternatives == [] || exists i :: 0 <= i < |alternatives| && AlternativeHolds(events, alternatives[i])
  }

  predicate NoneOccurs(events: seq<Event>, patterns: seq<Pattern>) {
    forall i :: 0 <= i < |patterns| ==> !Occurs(events, patterns[i])
  }

  predicate AllCountsHold(events: seq<Event>, counts: seq<CountAssertion>) {
    forall i :: 0 <= i < |counts| ==> CountHolds(events, counts[i])
  }

  predicate RetriesHold(events: seq<Event>, max: Option<int>) {
    max.Some? ==> |RetryPositions(events)| <= max.value
  }

  /** What a scenario asserts about the events of a trace. */
  predicate Meaning(s: Scenario, events: seq<Event>) {
    && AllOccur(events, s.must) && NoneOccurs(events, s.mustNot) && SomeAlternativeHolds(events, s.anyOf)
    && AllCountsHold(events, s.counts) && AllInOrder(events, s.ordered) && RetriesHold(events, s.maxRetries)
  }

  /** Which reasons belong to a trace that does not meet the scenario. */
  predicate Justified(s: Scenario, events: seq<Event>, r: Reason) {
    var noAlternative := !SomeAlternativeHolds(events, s.anyOf);
    match r
    case RequiredMissing =>
      !AllOccur(events, s.must) || (noAlternative && exists i :: 0 <= i < |s.anyOf| && !AllOccur(events, s.anyOf[i].must))
    case EventOrder =>
      !AllInOrder(events, s.ordered) || (noAlternative && exists i :: 0 <= i < |s.anyOf| && !AllInOrder(events, s.anyOf[i].ordered))
    case ForbiddenEvent => !NoneOccurs(events, s.mustNot)
    case EventCount => !AllCountsHold(events, s.counts)
    case RetryLimit => !RetriesHold(events, s.maxRetries)
    case _ => false
  }

  // ---------------------------------------------------------------- the evaluation

  method CountMatches(events: seq<Event>, p: Pattern) returns (count: nat)
    ensures count == |Positions(events, p)|
    ensures count == 0 <==> !Occurs(events, p)
  {
    count := 0;
    for i := 0 to |events|
      invariant count == |Positions(events[..i], p)|
    {
      OneMorePosition(events, p, i);
      if Matches(events[i], p) {
        count := count + 1;
      }
    }
    assert events[..|events|] == events;
    if Occurs(events, p) {
      var i: nat :| i < |events| && Matches(events[i], p);
      assert i in Positions(events, p);
    } else {
      assert Positions(events, p) == {};
    }
  }

  lemma {:induction false} OneMorePosition(events: seq<Event>, p: Pattern, i: nat)
    requires i < |events|
    ensures |Positions(events[..i + 1], p)| == |Positions(events[..i], p)| + if Matches(events[i], p) then 1 else 0
  {
    var before, after := Positions(events[..i], p), Positions(events[..i + 1], p);
    assert i !in before;
    assert after == before + if Matches(events[i], p) then {i} else {};
  }

  method FirstMatch(events: seq<Event>, p: Pattern) returns (first: nat, found: bool)
    ensures found <==> Occurs(events, p)
    ensures found ==> first < |events| && Matches(events[first], p) && forall i :: 0 <= i < first ==> !Matches(events[i], p)
  {
    first, found := 0, false;
    while first < |events| && !Matches(events[first], p)
      invariant first <= |events| && forall i :: 0 <= i < first ==> !Matches(events[i], p)
    {
      first := first + 1;
    }
    found := first < |events|;
  }

  /** The first events are compared by their sequence numbers; on a valid trace that is the order of
      the pattern. */
  method CheckOrder(events: seq<Event>, a: OrderAssertion) returns (holds: bool)
    requires Increasing(events)
    ensures holds <==> InOrder(events, a)
  {
    var before, beforeFound := FirstMatch(events, a.before);
    var after, afterFound := FirstMatch(events, a.after);
    holds := beforeFound && afterFound && events[before].sequence < events[after].sequence;
  }

  /** `reasons` are `n` times the same, and none exactly when all is well. */
  predicate Only(reasons: seq<Reason>, r: Reason, none: bool) {
    (forall i :: 0 <= i < |reasons| ==> reasons[i] == r) && (reasons == [] <==> none)
  }

  method MissingReasons(events: seq<Event>, patterns: seq<Pattern>) returns (reasons: seq<Reason>)
    ensures Only(reasons, RequiredMissing, AllOccur(events, patterns))
  {
    reasons := [];
    for i := 0 to |patterns|
      invariant Only(reasons, RequiredMissing, AllOccur(events, patterns[..i]))
    {
      var count := CountMatches(events, patterns[i]);
      assert patterns[..i + 1] == patterns[..i] + [patterns[i]];
      if count == 0 {
        reasons := reasons + [RequiredMissing];
      }
    }
    assert patterns[..|patterns|] == patterns;
  }

  method ForbiddenReasons(events: seq<Event>, patterns: seq<Pattern>) returns (reasons: seq<Reason>)
    ensures Only(reasons, ForbiddenEvent, NoneOccurs(events, patterns))
  {
    reasons := [];
    for i := 0 to |patterns|
      invariant Only(reasons, ForbiddenEvent, NoneOccurs(events, patterns[..i]))
    {
      var count := CountMatches(events, patterns[i]);
      assert patterns[..i + 1] == patterns[..i] + [patterns[i]];
      if count != 0 {
        reasons := reasons + [ForbiddenEvent];
      }
    }
    assert patterns[..|patterns|] == patterns;
  }

  method CountReasons(events: seq<Event>, counts: seq<CountAssertion>) returns (reasons: seq<Reason>)
    ensures Only(reasons, EventCount, AllCountsHold(events, counts))
  {
    reasons := [];
    for i := 0 to |counts|
      invariant Only(reasons, EventCount, AllCountsHold(events, counts[..i]))
    {
      var count := CountMatches(events, counts[i].pattern);
      assert counts[..i + 1] == counts[..i] + [counts[i]];
      if (counts[i].min.Some? && count < counts[i].min.value) || (counts[i].max.Some? && count > counts[i].max.value) {
        reasons := reasons + [EventCount];
      }
    }
    assert counts[..|counts|] == counts;
  }

  method OrderReasons(events: seq<Event>, ordered: seq<OrderAssertion>) returns (reasons: seq<Reason>)
    requires Increasing(events)
    ensures Only(reasons, EventOrder, AllInOrder(events, ordered))
  {
    reasons := [];
    for i := 0 to |ordered|
      invariant Only(reasons, EventOrder, AllInOrder(events, ordered[..i]))
    {
      var holds := CheckOrder(events, ordered[i]);
      assert ordered[..i + 1] == ordered[..i] + [ordered[i]];
      if !holds {
        reasons := reasons + [EventOrder];
      }
    }
    assert ordered[..|ordered|] == ordered;
  }

  method CountRetries(events: seq<Event>) returns (count: nat)
    ensures count == |RetryPositions(events)|
  {
    count := 0;
    for i := 0 to |events|
      invariant count == |RetryPositions(events[..i])|
    {
      assert RetryPositions(events[..i + 1]) == RetryPositions(events[..i]) + if events[i].retryOf.Some? then {i} else {};
      assert i !in RetryPositions(events[..i]);
      if events[i].retryOf.Some? {
        count := count + 1;
      }
    }
    assert events[..|events|] == events;
  }

  /** The reasons of the first alternatives, none of which holds. */
  ghost predicate AlternativeReasons(events: seq<Event>, tried: seq<Alternative>, reasons: seq<Reason>) {
    forall r :: r in reasons <==>
      || (r == RequiredMissing && exists i :: 0 <= i < |tried| && !AllOccur(events, tried[i].must))
      || (r == EventOrder && exists i :: 0 <= i < |tried| && !AllInOrder(events, tried[i].ordered))
  }

  method AnyOfReasons(events: seq<Event>, alternatives: seq<Alternative>) returns (passed: bool, reasons: seq<Reason>)
    requires Increasing(events)
    ensures passed <==> exists i :: 0 <= i < |alternatives| && AlternativeHolds(events, alternatives[i])
    ensures !passed ==> AlternativeReasons(events, alternatives, reasons)
  {
    passed, reasons := false, [];
    for i := 0 to |alternatives|
      invariant !passed && forall j :: 0 <= j < i ==> !AlternativeHolds(events, alternatives[j])
      invariant AlternativeReasons(events, alternatives[..i], reasons)
    {
      var missing := MissingReasons(events, alternatives[i].must);
      var order := OrderReasons(events, alternatives[i].ordered);
      if missing + order == [] {
        assert AlternativeHolds(events, alternatives[i]);
        return true, [];
      }
      MoreAlternatives(events, alternatives, i, reasons, missing, order);
      reasons := reasons + (missing + order);
    }
    assert alternatives[..|alternatives|] == alternatives;
  }

  lemma {:induction false} MoreAlternatives(events: seq<Event>, alternatives: seq<Alternative>, i: nat, reasons: seq<Reason>,
                                            missing: seq<Reason>, order: seq<Reason>)
    requires i < |alternatives| && AlternativeReasons(events, alternatives[..i], reasons)
    requires Only(missing, RequiredMissing, AllOccur(events, alternatives[i].must))
    requires Only(order, EventOrder, AllInOrder(events, alternatives[i].ordered))
    ensures AlternativeReasons(events, alternatives[..i + 1], reasons + (missing + order))
  {
    var tried, more := alternatives[..i], alternatives[..i + 1];
    assert more == tried + [alternatives[i]];
    OnlyIn(missing, RequiredMissing, AllOccur(events, alternatives[i].must));
    OnlyIn(order, EventOrder, AllInOrder(events, alternatives[i].ordered));
    assert (exists j :: 0 <= j < |more| && !AllOccur(events, more[j].must))
        <==> (exists j :: 0 <= j < |tried| && !AllOccur(events, tried[j].must)) || !AllOccur(events, alternatives[i].must) by {
      assert more[i] == alternatives[i] && forall j :: 0 <= j < i ==> more[j] == tried[j];
    }
    assert (exists j :: 0 <= j < |more| && !AllInOrder(events, more[j].ordered))
        <==> (exists j :: 0 <= j < |tried| && !AllInOrder(events, tried[j].ordered)) || !AllInOrder(events, alternatives[i].ordered) by {
      assert more[i] == alternatives[i] && forall j :: 0 <= j < i ==> more[j] == tried[j];
    }
  }

  lemma {:induction false} OnlyIn(reasons: seq<Reason>, r: Reason, none: bool)
    requires Only(reasons, r, none)
    ensures forall other :: other in reasons <==> other == r && !none
  {
    if reasons != [] {
      assert reasons[0] == r;
    }
  }

  // ---------------------------------------------------------------- sorted reasons

  function SortReasons(reasons: seq<Reason>): seq<Reason> {
    K.Sort(reasons, ReasonKey)
  }

  lemma {:induction false} SortSorts(reasons: seq<Reason>)
    ensures K.Ordered(SortReasons(reasons), ReasonKey) && forall r :: r in SortReasons(reasons) <==> r in reasons
    ensures StrictlySorted(reasons) ==> SortReasons(reasons) == reasons
  {
    K.SortOrders(reasons, ReasonKey);
    if StrictlySorted(reasons) {
      K.SortedStays(reasons, ReasonKey);
    }
    forall r
      ensures r in SortReasons(reasons) <==> r in reasons
    {
      K.SortHas(reasons, ReasonKey, r);
    }
  }

  /** A list without its immediate repetitions. */
  function Compacted(reasons: seq<Reason>): seq<Reason> {
    if |reasons| < 2 then reasons
    else if reasons[|reasons| - 1] == reasons[|reasons| - 2] then Compacted(reasons[..|reasons| - 1])
    else Compacted(reasons[..|reasons| - 1]) + [reasons[|reasons| - 1]]
  }

  lemma {:induction false} CompactHas(reasons: seq<Reason>)
    ensures forall r :: r in Compacted(reasons) <==> r in reasons
    ensures reasons != [] ==> Compacted(reasons) != [] && Compacted(reasons)[|Compacted(reasons)| - 1] == reasons[|reasons| - 1]
  {
    if |reasons| >= 2 {
      var front, last := reasons[..|reasons| - 1], reasons[|reasons| - 1];
      assert reasons == front + [last];
      CompactHas(front);
    }
  }

  lemma {:induction false} Rises(a: Reason, b: Reason)
    ensures K.Less(ReasonKey(a), ReasonKey(b)) <==> Rank(a) < Rank(b)
    ensures Rank(a) == Rank(b) ==> a == b
  {
  }

  /** A sorted list loses exactly its repetitions. */
  lemma {:induction false} CompactSorts(reasons: seq<Reason>)
    requires K.Ordered(reasons, ReasonKey)
    ensures StrictlySorted(Compacted(reasons)) && forall r :: r in Compacted(reasons) <==> r in reasons
  {
    CompactHas(reasons);
    if |reasons| >= 2 {
      var n := |reasons| - 1;
      K.PrefixOrdered(reasons, ReasonKey, n);
      CompactSorts(reasons[..n]);
      CompactHas(reasons[..n]);
      if reasons[n] != reasons[n - 1] {
        assert K.InOrder(reasons, ReasonKey, n - 1, n);
        Rises(reasons[n - 1], reasons[n]);
        Rises(reasons[n], reasons[n - 1]);
        K.BehindLast(Compacted(reasons[..n]), reasons[n], ReasonKey);
      }
    }
  }

  lemma {:induction false} CompactStays(reasons: seq<Reason>)
    requires StrictlySorted(reasons)
    ensures Compacted(reasons) == reasons
  {
    if |reasons| >= 2 {
      var n := |reasons| - 1;
      assert K.Apart(reasons, ReasonKey, n - 1, n);
      Rises(reasons[n - 1], reasons[n]);
      K.PrefixOrdered(reasons, ReasonKey, n);
      CompactStays(reasons[..n]);
    }
  }

  /** Walks the list once and keeps what differs from the reason kept last. */
  method CompactReasons(reasons: seq<Reason>) returns (output: seq<Reason>)
    ensures output == Compacted(reasons)
  {
    if |reasons| < 2 {
      return reasons;
    }
    output := reasons[..1];
    for i := 1 to |reasons|
      invariant output == Compacted(reasons[..i]) && output != [] && output[|output| - 1] == reasons[i - 1]
    {
      assert reasons[..i + 1][..i] == reasons[..i];
      if reasons[i] != output[|output| - 1] {
        output := output + [reasons[i]];
      }
    }
    assert reasons[..|reasons|] == reasons;
  }

  // ---------------------------------------------------------------- the verdict

  /** The verdict on a trace: it passes exactly when it is a complete observation and the meaning of
      the scenario holds, and its reasons are exactly the justified ones, each once and in order. */
  ghost predicate VerdictIs(v: Verdict, s: Scenario, t: Trace, version: string) {
    if t.contract != version then v == Verdict(Error, [ContractMismatch])
    else if t.scenario != s.id then v == Verdict(Error, [ScenarioUnknown])
    else if exists i :: 0 <= i < |s.requiredObservations| && s.requiredObservations[i] !in t.observed then
      v == Verdict(Inconclusive, [ObservationIncomplete])
    else
      && v.status == (if Meaning(s, t.events) then Pass else Fail)
      && StrictlySorted(v.reasons) && forall r :: r in v.reasons <==> Justified(s, t.events, r)
  }

  method CollectReasons(s: Scenario, events: seq<Event>) returns (reasons: seq<Reason>)
    requires Increasing(events)
    ensures forall r :: r in reasons <==> Justified(s, events, r)
  {
    var missing := MissingReasons(events, s.must);
    var forbidden := ForbiddenReasons(events, s.mustNot);
    var alternatives := [];
    if |s.anyOf| != 0 {
      var passed, found := AnyOfReasons(events, s.anyOf);
      if !passed {
        alternatives := found;
      }
    }
    var counts := CountReasons(events, s.counts);
    var order := OrderReasons(events, s.ordered);
    var retries := [];
    if s.maxRetries.Some? {
      var count := CountRetries(events);
      if count > s.maxRetries.value {
        retries := [RetryLimit];
      }
    }
    OnlyIn(missing, RequiredMissing, AllOccur(events, s.must));
    OnlyIn(forbidden, ForbiddenEvent, NoneOccurs(events, s.mustNot));
    OnlyIn(counts, EventCount, AllCountsHold(events, s.counts));
    OnlyIn(order, EventOrder, AllInOrder(events, s.ordered));
    reasons := missing + forbidden + alternatives + counts + order + retries;
  }

  lemma {:induction false} NoReasonMeansMeaning(s: Scenario, events: seq<Event>)
    ensures Meaning(s, events) <==> forall r :: !Justified(s, events, r)
  {
    if !Meaning(s, events) {
      if AllOccur(events, s.must) && AllInOrder(events, s.ordered) && !SomeAlternativeHolds(events, s.anyOf) {
        assert !AlternativeHolds(events, s.anyOf[0]);
        assert Justified(s, events, RequiredMissing) || Justified(s, events, EventOrder);
      }
      assert Justified(s, events, RequiredMissing) || Justified(s, events, EventOrder) || Justified(s, events, ForbiddenEvent)
          || Justified(s, events, EventCount) || Justified(s, events, RetryLimit);
    }
  }

  method ValidateScenario(s: Scenario, t: Trace, version: string) returns (v: Verdict)
    requires Increasing(t.events)
    ensures VerdictIs(v, s, t, version)
  {
    if t.contract != version {
      return Verdict(Error, [ContractMismatch]);
    }
    if t.scenario != s.id {
      return Verdict(Error, [ScenarioUnknown]);
    }
    for i := 0 to |s.requiredObservations|
      invariant forall j :: 0 <= j < i ==> s.requiredObservations[j] in t.observed
    {
      if s.requiredObservations[i] !in t.observed {
        return Verdict(Inconclusive, [ObservationIncomplete]);
      }
    }
    var reasons := CollectReasons(s, t.events);
    NoReasonMeansMeaning(s, t.events);
    if reasons == [] {
      assert forall r :: r !in reasons;
      return Verdict(Pass, []);
    }
    assert Justified(s, t.events, reasons[0]);
    SortSorts(reasons);
    CompactSorts(SortReasons(reasons));
    var compact := CompactReasons(SortReasons(reasons));
    v := Verdict(Fail, compact);
    forall r
      ensures r in v.reasons <==> Justified(s, t.events, r)
    {
      assert r in compact <==> r in SortReasons(reasons);
    }
  }
}
