/** Running a suite over recorded traces, and the strict reading of the report that comes out. */
module ConformanceReport {
  import opened Options
  import opened FileBytes
  import opened ConformanceTrace
  import opened ConformanceScenario
  import K = KeyOrder

  /** The clients, in the order of their names. */
  datatype Client = ChatGPT | Claude | Codex | GenericMCP | Synthetic

  const CLIENTS := [ChatGPT, Claude, Codex, GenericMCP, Synthetic]

  function ClientRank(c: Client): nat {
    match c case ChatGPT => 0 case Claude => 1 case Codex => 2 case GenericMCP => 3 case Synthetic => 4
  }

  datatype Row = Row(client: Client, scenario: string, verdict: Verdict)

  datatype Aggregate = Aggregate(pass: nat, fail: nat, inconclusive: nat, error: nat)

  datatype Report = Report(contract: string, suite: string, source: string, gatesPassed: bool, aggregate: Aggregate, rows: seq<Row>)

  datatype Result<T> = Ok(value: T) | Rejected

  /** The text checks of the program: version numbers, scenario ids and event codes. */
  datatype Texts = Texts(version: string -> bool, id: string -> bool, code: string -> bool)

  function RowKey(r: Row): K.Key {
    K.Key(ClientRank(r.client), r.scenario)
  }

  function ScenarioKey(s: Scenario): K.Key {
    K.Key(0, s.id)
  }

  // ---------------------------------------------------------------- counting

  function Counted(a: Aggregate, status: Status): Aggregate {
    match status
    case Pass => a.(pass := a.pass + 1)
    case Fail => a.(fail := a.fail + 1)
    case Inconclusive => a.(inconclusive := a.inconclusive + 1)
    case Error => a.(error := a.error + 1)
  }

  function Tally(rows: seq<Row>): Aggregate {
    if rows == [] then Aggregate(0, 0, 0, 0) else Counted(Tally(rows[..|rows| - 1]), rows[|rows| - 1].verdict.status)
  }

  predicate AllPass(a: Aggregate) {
    a.fail == 0 && a.inconclusive == 0 && a.error == 0
  }

  /** The positions of the rows with a status. */
  function With(rows: seq<Row>, status: Status): set<nat> {
    set i: nat | i < |rows| && rows[i].verdict.status == status
  }

  /** Each count is the number of rows with its status, the counts partition the rows, and the gates
      pass exactly when every row does. */
  lemma {:induction false} TallyPartitions(rows: seq<Row>)
    ensures var a := Tally(rows);
            && a == Aggregate(|With(rows, Pass)|, |With(rows, Fail)|, |With(rows, Inconclusive)|, |With(rows, Error)|)
            && a.pass + a.fail + a.inconclusive + a.error == |rows|
            && (AllPass(a) <==> forall i :: 0 <= i < |rows| ==> rows[i].verdict.status.Pass?)
  {
    if rows != [] {
      var front := rows[..|rows| - 1];
      TallyPartitions(front);
      assert forall i :: 0 <= i < |front| ==> front[i] == rows[i];
      OneMoreRow(rows, Pass);
      OneMoreRow(rows, Fail);
      OneMoreRow(rows, Inconclusive);
      OneMoreRow(rows, Error);
    }
  }

  lemma {:induction false} OneMoreRow(rows: seq<Row>, status: Status)
    requires rows != []
    ensures var n := |rows| - 1;
            |With(rows, status)| == |With(rows[..n], status)| + if rows[n].verdict.status == status then 1 else 0
  {
    var n := |rows| - 1;
    var before := With(rows[..n], status);
    assert n !in before;
    assert With(rows, status) == before + if rows[n].verdict.status == status then {n} else {};
  }

  // ---------------------------------------------------------------- reading a report

  ghost predicate RowOk(r: Row, texts: Texts) {
    && texts.id(r.scenario)
    && (r.verdict.status.Pass? <==> r.verdict.reasons == [])
    && ConformanceScenario.StrictlySorted(r.verdict.reasons)
  }

  /** What a report has to be to be read. */
  ghost predicate Acceptable(r: Report, texts: Texts) {
    && texts.version(r.contract) && texts.version(r.suite) && r.source in {"fixture", "live"} && r.rows != []
    && (forall i :: 0 <= i < |r.rows| ==> RowOk(r.rows[i], texts))
    && K.DistinctKeys(r.rows, RowKey)
    && r.aggregate == Tally(r.rows) && r.gatesPassed == AllPass(r.aggregate)
  }

  function NormalRow(r: Row): Row {
    r.(verdict := r.verdict.(reasons := Compacted(SortReasons(r.verdict.reasons))))
  }

  function NormalRows(rows: seq<Row>): seq<Row> {
    seq(|rows|, i requires 0 <= i < |rows| => NormalRow(rows[i]))
  }

  /** The form in which reports are returned and rendered. */
  function Normalize(r: Report): Report {
    r.(rows := K.Sort(NormalRows(r.rows), RowKey))
  }

  ghost predicate Normal(r: Report) {
    && K.StrictlySorted(r.rows, RowKey)
    && forall i :: 0 <= i < |r.rows| ==> ConformanceScenario.StrictlySorted(r.rows[i].verdict.reasons)
  }

  /** Two rows with the same verdict on the same scenario and client, but for the order and the
      repetition of their reasons. */
  ghost predicate SameRow(a: Row, b: Row) {
    && a.client == b.client && a.scenario == b.scenario && a.verdict.status == b.verdict.status
    && forall x :: x in a.verdict.reasons <==> x in b.verdict.reasons
  }

  lemma {:induction false} NormalRowIs(r: Row)
    ensures SameRow(NormalRow(r), r)
    ensures ConformanceScenario.StrictlySorted(NormalRow(r).verdict.reasons)
    ensures ConformanceScenario.StrictlySorted(r.verdict.reasons) ==> NormalRow(r) == r
  {
    SortSorts(r.verdict.reasons);
    CompactSorts(SortReasons(r.verdict.reasons));
    forall x: Reason
      ensures x in NormalRow(r).verdict.reasons <==> x in r.verdict.reasons
    {
      K.SortHas(r.verdict.reasons, ReasonKey, x);
    }
    if ConformanceScenario.StrictlySorted(r.verdict.reasons) {
      CompactStays(r.verdict.reasons);
    }
  }

  /** Normalising gives a normal report, for every report that names no pair of client and scenario
      twice. */
  lemma {:induction false} NormalizeIsNormal(r: Report)
    requires K.DistinctKeys(r.rows, RowKey)
    ensures Normal(Normalize(r))
  {
    var rows := NormalRows(r.rows);
    forall i | 0 <= i < |rows|
      ensures RowKey(rows[i]) == RowKey(r.rows[i]) && ConformanceScenario.StrictlySorted(rows[i].verdict.reasons)
    {
      NormalRowIs(r.rows[i]);
    }
    assert K.DistinctKeys(rows, RowKey);
    K.SortSorts(rows, RowKey);
    var sorted := K.Sort(rows, RowKey);
    forall i | 0 <= i < |sorted|
      ensures ConformanceScenario.StrictlySorted(sorted[i].verdict.reasons)
    {
      K.SortHas(rows, RowKey, sorted[i]);
      var k :| 0 <= k < |rows| && rows[k] == sorted[i];
    }
  }

  /** A normal report is its own normal form. */
  lemma {:induction false} NormalStays(r: Report)
    requires Normal(r)
    ensures Normalize(r) == r
  {
    forall i | 0 <= i < |r.rows|
      ensures NormalRow(r.rows[i]) == r.rows[i]
    {
      NormalRowIs(r.rows[i]);
    }
    assert NormalRows(r.rows) == r.rows;
    K.SortedStays(r.rows, RowKey);
  }

  /** What a normal form tells is what the report tells: it has the same head and counts, and for
      every row one row that is the same but for the order of its reasons. */
  lemma {:induction false} NormalizeKeeps(r: Report)
    ensures Normalize(r).(rows := r.rows) == r
    ensures var rows := NormalRows(r.rows);
            && |rows| == |r.rows| && (forall i :: 0 <= i < |rows| ==> SameRow(rows[i], r.rows[i]))
            && multiset(Normalize(r).rows) == multiset(rows)
    ensures Tally(Normalize(r).rows) == Tally(r.rows)
  {
    var rows := NormalRows(r.rows);
    forall i | 0 <= i < |rows|
      ensures SameRow(rows[i], r.rows[i])
    {
      NormalRowIs(r.rows[i]);
    }
    K.SortKeeps(rows, RowKey);
    TallyOfSame(rows, r.rows);
    TallyOfSorted(rows);
  }

  lemma {:induction false} TallyOfSame(a: seq<Row>, b: seq<Row>)
    requires |a| == |b| && forall i :: 0 <= i < |a| ==> a[i].verdict.status == b[i].verdict.status
    ensures Tally(a) == Tally(b)
  {
    if a != [] {
      TallyOfSame(a[..|a| - 1], b[..|b| - 1]);
    }
  }

  lemma {:induction false} TallyInFront(row: Row, rows: seq<Row>)
    ensures Tally([row] + rows) == Counted(Tally(rows), row.verdict.status)
  {
    assert [row][..0] == [];
    TallyConcat([row], rows);
  }

  lemma {:induction false} CountedTwice(a: Aggregate, s: Status, t: Status)
    ensures Counted(Counted(a, s), t) == Counted(Counted(a, t), s)
  {
  }

  lemma {:induction false} TallyOfInserted(row: Row, rows: seq<Row>)
    ensures Tally(K.Insert(row, rows, RowKey)) == Tally([row] + rows)
  {
    if rows != [] && K.Less(RowKey(rows[0]), RowKey(row)) {
      var first, tail := rows[0], rows[1..];
      var rest := K.Insert(row, tail, RowKey);
      assert K.Insert(row, rows, RowKey) == [first] + rest;
      TallyOfInserted(row, tail);
      TallyOfFirstTwo(first, row, tail, rest);
      assert rows == [first] + tail;
    }
  }

  lemma {:induction false} TallyOfFirstTwo(a: Row, b: Row, tail: seq<Row>, rest: seq<Row>)
    requires Tally(rest) == Tally([b] + tail)
    ensures Tally([a] + rest) == Tally([b] + ([a] + tail))
  {
    TallyInFront(a, rest);
    TallyInFront(b, tail);
    TallyInFront(b, [a] + tail);
    TallyInFront(a, tail);
    CountedTwice(Tally(tail), a.verdict.status, b.verdict.status);
  }

  lemma {:induction false} TallyOfSorted(rows: seq<Row>)
    ensures Tally(K.Sort(rows, RowKey)) == Tally(rows)
  {
    if rows != [] {
      TallyOfSorted(rows[1..]);
      TallyOfInserted(rows[0], K.Sort(rows[1..], RowKey));
      TallyInFront(rows[0], K.Sort(rows[1..], RowKey));
      TallyInFront(rows[0], rows[1..]);
      assert rows == [rows[0]] + rows[1..];
    }
  }

  /** Normalising twice is normalising once, for every report. */
  lemma {:induction false} NormalizeTwice(r: Report)
    ensures Normalize(Normalize(r)) == Normalize(r)
  {
    var rows := NormalRows(r.rows);
    var sorted := K.Sort(rows, RowKey);
    forall i | 0 <= i < |sorted|
      ensures NormalRow(sorted[i]) == sorted[i]
    {
      K.SortHas(rows, RowKey, sorted[i]);
      var k :| 0 <= k < |rows| && rows[k] == sorted[i];
      NormalRowIs(r.rows[k]);
      NormalRowIs(rows[k]);
    }
    assert NormalRows(sorted) == sorted;
    K.SortOrders(rows, RowKey);
    K.OrderedStays(sorted, RowKey);
  }

  method CheckReasons(reasons: seq<Reason>) returns (ok: bool)
    ensures ok <==> ConformanceScenario.StrictlySorted(reasons)
  {
    for i := 0 to |reasons|
      invariant ConformanceScenario.StrictlySorted(reasons[..i])
    {
      if i > 0 {
        Rises(reasons[i - 1], reasons[i]);
        if Rank(reasons[i]) <= Rank(reasons[i - 1]) {
          assert !K.Apart(reasons, ReasonKey, i - 1, i);
          return false;
        }
      }
      assert reasons[..i + 1] == reasons[..i] + [reasons[i]];
      K.BehindLast(reasons[..i], reasons[i], ReasonKey);
    }
    assert reasons[..|reasons|] == reasons;
    ok := true;
  }

  method CheckRow(r: Row, texts: Texts) returns (ok: bool)
    ensures ok <==> RowOk(r, texts)
  {
    if !texts.id(r.scenario) || (r.verdict.status.Pass? && r.verdict.reasons != [])
       || (!r.verdict.status.Pass? && r.verdict.reasons == []) {
      return false;
    }
    ok := CheckReasons(r.verdict.reasons);
  }

  /** The rows of a report, counted and checked one after the other. */
  method CheckRows(rows: seq<Row>, texts: Texts) returns (ok: bool, expected: Aggregate)
    ensures ok <==> (forall i :: 0 <= i < |rows| ==> RowOk(rows[i], texts)) && K.DistinctKeys(rows, RowKey)
    ensures ok ==> expected == Tally(rows)
  {
    expected := Aggregate(0, 0, 0, 0);
    var seen: set<K.Key> := {};
    for i := 0 to |rows|
      invariant forall j :: 0 <= j < i ==> RowOk(rows[j], texts)
      invariant forall k :: k in seen <==> exists j :: 0 <= j < i && RowKey(rows[j]) == k
      invariant K.DistinctKeys(rows[..i], RowKey) && expected == Tally(rows[..i])
    {
      var good := CheckRow(rows[i], texts);
      if !good || RowKey(rows[i]) in seen {
        return false, expected;
      }
      assert rows[..i + 1] == rows[..i] + [rows[i]] && rows[..i + 1][..i] == rows[..i];
      seen := seen + {RowKey(rows[i])};
      expected := Counted(expected, rows[i].verdict.status);
    }
    assert rows[..|rows|] == rows;
    ok := true;
  }

  /** The encoding of reports. */
  datatype Codec = Codec(write: Report -> Bytes, read: Bytes -> Option<Report>)

  ghost predicate CodecOk(c: Codec) {
    forall r :: c.read(c.write(r)) == Some(r)
  }

  const MAX_INPUT_BYTES := 8 * 1024 * 1024

  function Render(c: Codec, r: Report): Bytes {
    c.write(Normalize(r))
  }

  /** What strict reading makes of a text. */
  ghost function ReadReport(c: Codec, text: Bytes, texts: Texts): Result<Report> {
    if |text| > MAX_INPUT_BYTES then Rejected
    else match c.read(text)
      case None => Rejected
      case Some(r) => if Acceptable(r, texts) then Ok(Normalize(r)) else Rejected
  }

  /** Reads a report strictly. What is accepted is in normal form. */
  method DecodeReport(c: Codec, text: Bytes, texts: Texts) returns (result: Result<Report>)
    ensures result == ReadReport(c, text, texts) && (result.Ok? ==> Normal(result.value))
  {
    if |text| > MAX_INPUT_BYTES {
      return Rejected;
    }
    var decoded := c.read(text);
    if decoded.None? {
      return Rejected;
    }
    result := CheckReport(decoded.value, texts);
    if result.Ok? {
      NormalizeIsNormal(decoded.value);
    }
  }

  /** Recounts a report, and gives it back in normal form. */
  method CheckReport(r: Report, texts: Texts) returns (result: Result<Report>)
    ensures result == if Acceptable(r, texts) then Ok(Normalize(r)) else Rejected
  {
    if !texts.version(r.contract) || !texts.version(r.suite) || (r.source != "fixture" && r.source != "live") || r.rows == [] {
      return Rejected;
    }
    var ok, expected := CheckRows(r.rows, texts);
    if !ok || r.aggregate != expected || r.gatesPassed != AllPass(expected) {
      return Rejected;
    }
    result := Ok(Normalize(r));
  }

  // ---------------------------------------------------------------- running a suite

  datatype Suite = Suite(contract: string, version: string, scenarios: seq<Scenario>)

  datatype ClientTrace = ClientTrace(client: Client, trace: Trace)

  datatype Bundle = Bundle(contract: string, traces: seq<ClientTrace>)

  predicate SuiteOk(suite: Suite, texts: Texts) {
    && texts.version(suite.contract) && texts.version(suite.version) && suite.scenarios != []
    && (forall i :: 0 <= i < |suite.scenarios| ==> texts.id(suite.scenarios[i].id))
    && K.DistinctKeys(suite.scenarios, ScenarioKey)
  }

  /** The traces of a bundle: valid, for known scenarios, one for each client and scenario. */
  ghost predicate BundleOk(bundle: Bundle, suite: Suite, texts: Texts) {
    && bundle.contract == suite.contract && bundle.traces != []
    && (forall i :: 0 <= i < |bundle.traces| ==>
          && bundle.traces[i].trace.contract == bundle.contract && TraceOk(bundle.traces[i].trace.events, texts.code)
          && exists k :: 0 <= k < |suite.scenarios| && suite.scenarios[k].id == bundle.traces[i].trace.scenario)
    && forall i, j :: 0 <= i < j < |bundle.traces| ==> PairOf(bundle.traces[i]) != PairOf(bundle.traces[j])
  }

  function PairOf(t: ClientTrace): (Client, string) {
    (t.client, t.trace.scenario)
  }

  predicate HasTrace(bundle: Bundle, client: Client, id: string, k: int) {
    0 <= k < |bundle.traces| && PairOf(bundle.traces[k]) == (client, id)
  }

  /** What a row has to say about a scenario: the verdict on the trace, or that there is none. */
  ghost predicate VerdictFor(v: Verdict, s: Scenario, client: Client, bundle: Bundle, contract: string) {
    if exists k :: HasTrace(bundle, client, s.id, k)
    then exists k :: HasTrace(bundle, client, s.id, k) && VerdictIs(v, s, bundle.traces[k].trace, contract)
    else v == Verdict(Inconclusive, [ObservationIncomplete])
  }

  lemma {:induction false} VerdictIsOk(v: Verdict, s: Scenario, t: Trace, version: string)
    requires VerdictIs(v, s, t, version)
    ensures (v.status.Pass? <==> v.reasons == []) && ConformanceScenario.StrictlySorted(v.reasons)
  {
    NoReasonMeansMeaning(s, t.events);
    if v.reasons != [] {
      assert v.reasons[0] in v.reasons;
    }
  }

  /** The rows of one client, one for each scenario and in the order of the scenarios. */
  ghost predicate ClientRows(rows: seq<Row>, client: Client, scenarios: seq<Scenario>, texts: Texts) {
    && |rows| == |scenarios|
    && forall i :: 0 <= i < |rows| ==> rows[i].client == client && rows[i].scenario == scenarios[i].id && RowOk(rows[i], texts)
  }

  ghost predicate TracesOk(bundle: Bundle, texts: Texts) {
    forall i :: 0 <= i < |bundle.traces| ==> TraceOk(bundle.traces[i].trace.events, texts.code)
  }

  method RunClient(client: Client, scenarios: seq<Scenario>, bundle: Bundle, contract: string, texts: Texts) returns (rows: seq<Row>)
    requires TracesOk(bundle, texts)
    requires forall i :: 0 <= i < |scenarios| ==> texts.id(scenarios[i].id)
    ensures ClientRows(rows, client, scenarios, texts)
    ensures forall i :: 0 <= i < |rows| ==> VerdictFor(rows[i].verdict, scenarios[i], client, bundle, contract)
  {
    rows := [];
    for i := 0 to |scenarios|
      invariant ClientRows(rows, client, scenarios[..i], texts)
      invariant forall j :: 0 <= j < i ==> VerdictFor(rows[j].verdict, scenarios[j], client, bundle, contract)
    {
      var v := Verdict(Inconclusive, [ObservationIncomplete]);
      var k := FindTrace(bundle, client, scenarios[i].id);
      if k.Some? {
        v := ValidateScenario(scenarios[i], bundle.traces[k.value].trace, contract);
        VerdictIsOk(v, scenarios[i], bundle.traces[k.value].trace, contract);
      }
      assert scenarios[..i + 1] == scenarios[..i] + [scenarios[i]];
      rows := rows + [Row(client, scenarios[i].id, v)];
    }
    assert scenarios[..|scenarios|] == scenarios;
  }

  method FindTrace(bundle: Bundle, client: Client, id: string) returns (k: Option<nat>)
    ensures k.Some? ==> HasTrace(bundle, client, id, k.value)
    ensures k.None? ==> forall j :: !HasTrace(bundle, client, id, j)
  {
    for i := 0 to |bundle.traces|
      invariant forall j :: HasTrace(bundle, client, id, j) ==> j >= i
    {
      if PairOf(bundle.traces[i]) == (client, id) {
        return Some(i);
      }
    }
    k := None;
  }

  lemma {:induction false} TallyConcat(a: seq<Row>, b: seq<Row>)
    ensures Tally(a + b) == Aggregate(Tally(a).pass + Tally(b).pass, Tally(a).fail + Tally(b).fail,
                                      Tally(a).inconclusive + Tally(b).inconclusive, Tally(a).error + Tally(b).error)
  {
    if b == [] {
      assert a + b == a;
    } else {
      assert (a + b)[..|a + b| - 1] == a + b[..|b| - 1];
      TallyConcat(a, b[..|b| - 1]);
    }
  }

  method Aggregated(start: Aggregate, rows: seq<Row>) returns (a: Aggregate)
    ensures a == Aggregate(start.pass + Tally(rows).pass, start.fail + Tally(rows).fail,
                           start.inconclusive + Tally(rows).inconclusive, start.error + Tally(rows).error)
  {
    a := start;
    for i := 0 to |rows|
      invariant a == Aggregate(start.pass + Tally(rows[..i]).pass, start.fail + Tally(rows[..i]).fail,
                               start.inconclusive + Tally(rows[..i]).inconclusive, start.error + Tally(rows[..i]).error)
    {
      assert rows[..i + 1][..i] == rows[..i];
      a := Counted(a, rows[i].verdict.status);
    }
    assert rows[..|rows|] == rows;
  }

  /** The rows of a client follow the rows of the clients before it. */
  lemma {:induction false} RowsFollow(rows: seq<Row>, more: seq<Row>, client: Client, scenarios: seq<Scenario>, texts: Texts)
    requires K.StrictlySorted(rows, RowKey) && K.StrictlySorted(scenarios, ScenarioKey) && ClientRows(more, client, scenarios, texts)
    requires forall i :: 0 <= i < |rows| ==> ClientRank(rows[i].client) < ClientRank(client)
    ensures K.StrictlySorted(rows + more, RowKey)
  {
    forall i, j
      ensures K.Apart(rows + more, RowKey, i, j)
    {
      if 0 <= i < j < |rows + more| {
        if j < |rows| {
          assert K.Apart(rows, RowKey, i, j);
        } else if i >= |rows| {
          assert K.Apart(scenarios, ScenarioKey, i - |rows|, j - |rows|);
        }
      }
    }
  }

  lemma {:induction false} SortedIsDistinct<T>(xs: seq<T>, key: T -> K.Key)
    requires K.StrictlySorted(xs, key)
    ensures K.DistinctKeys(xs, key)
  {
    forall i, j | 0 <= i < j < |xs|
      ensures key(xs[i]) != key(xs[j])
    {
      assert K.Apart(xs, key, i, j);
      K.Trichotomy(key(xs[i]), key(xs[j]));
    }
  }

  predicate Takes(bundle: Bundle, client: Client) {
    exists k :: 0 <= k < |bundle.traces| && bundle.traces[k].client == client
  }

  /** One row says the truth about one pair of a client that takes part and a scenario of the suite. */
  ghost predicate RowIsTrue(r: Row, suite: Suite, bundle: Bundle) {
    && Takes(bundle, r.client)
    && exists k :: 0 <= k < |suite.scenarios| && suite.scenarios[k].id == r.scenario
                   && VerdictFor(r.verdict, suite.scenarios[k], r.client, bundle, suite.contract)
  }

  /** The rows of the first clients: in order, all true, and one for every pair. */
  ghost predicate RowsOf(rows: seq<Row>, clients: seq<Client>, suite: Suite, bundle: Bundle, texts: Texts) {
    && K.StrictlySorted(rows, RowKey)
    && (forall i: nat :: RowFits(rows, i, clients, suite, bundle, texts))
    && forall c: nat, k: nat :: PairHasRow(rows, clients, suite, c, k)
  }

  ghost predicate RowFits(rows: seq<Row>, i: nat, clients: seq<Client>, suite: Suite, bundle: Bundle, texts: Texts) {
    i < |rows| ==> RowOk(rows[i], texts) && RowIsTrue(rows[i], suite, bundle) && rows[i].client in clients
  }

  predicate PairHasRow(rows: seq<Row>, clients: seq<Client>, suite: Suite, c: nat, k: nat) {
    c < |clients| && k < |suite.scenarios| ==> HasRow(rows, clients[c], suite.scenarios[k].id)
  }

  predicate HasRow(rows: seq<Row>, client: Client, id: string) {
    exists i :: 0 <= i < |rows| && rows[i].client == client && rows[i].scenario == id
  }

  lemma {:induction false} MoreRows(rows: seq<Row>, more: seq<Row>, clients: seq<Client>, client: Client, sorted: seq<Scenario>,
                                    suite: Suite, bundle: Bundle, texts: Texts)
    requires RowsOf(rows, clients, suite, bundle, texts) && Takes(bundle, client)
    requires K.StrictlySorted(sorted, ScenarioKey) && forall s :: s in sorted <==> s in suite.scenarios
    requires ClientRows(more, client, sorted, texts)
    requires forall i :: 0 <= i < |more| ==> VerdictFor(more[i].verdict, sorted[i], client, bundle, suite.contract)
    requires forall c :: c in clients ==> ClientRank(c) < ClientRank(client)
    ensures RowsOf(rows + more, clients + [client], suite, bundle, texts)
  {
    forall i | 0 <= i < |rows|
      ensures ClientRank(rows[i].client) < ClientRank(client)
    {
      assert RowFits(rows, i, clients, suite, bundle, texts);
    }
    RowsFollow(rows, more, client, sorted, texts);
    var all := rows + more;
    forall i: nat
      ensures RowFits(all, i, clients + [client], suite, bundle, texts)
    {
      if i < |rows| {
        assert RowFits(rows, i, clients, suite, bundle, texts);
      } else if i < |all| {
        assert sorted[i - |rows|] in suite.scenarios;
        var k :| 0 <= k < |suite.scenarios| && suite.scenarios[k] == sorted[i - |rows|];
        assert all[i].client == (clients + [client])[|clients|];
      }
    }
    forall c: nat, k: nat
      ensures PairHasRow(all, clients + [client], suite, c, k)
    {
      if k >= |suite.scenarios| || c > |clients| {
      } else if c < |clients| {
        assert PairHasRow(rows, clients, suite, c, k);
        var i :| 0 <= i < |rows| && rows[i].client == clients[c] && rows[i].scenario == suite.scenarios[k].id;
        assert all[i] == rows[i];
      } else {
        assert suite.scenarios[k] in sorted;
        var i :| 0 <= i < |sorted| && sorted[i] == suite.scenarios[k];
        assert all[|rows| + i] == more[i];
      }
    }
  }

  method CheckBundle(bundle: Bundle, suite: Suite, texts: Texts) returns (ok: bool)
    ensures ok <==> BundleOk(bundle, suite, texts)
  {
    if bundle.contract != suite.contract || bundle.traces == [] {
      return false;
    }
    var seen: set<(Client, string)> := {};
    for i := 0 to |bundle.traces|
      invariant BundleOk(bundle.(traces := bundle.traces[..i]), suite, texts) || i == 0
      invariant forall p :: p in seen <==> exists j :: 0 <= j < i && PairOf(bundle.traces[j]) == p
    {
      var t := bundle.traces[i];
      var valid := ValidateTrace(t.trace.events, texts.code);
      if t.trace.contract != bundle.contract || !valid {
        return false;
      }
      if !(exists k :: 0 <= k < |suite.scenarios| && suite.scenarios[k].id == t.trace.scenario) {
        return false;
      }
      if PairOf(t) in seen {
        return false;
      }
      assert bundle.traces[..i + 1] == bundle.traces[..i] + [t];
      seen := seen + {PairOf(t)};
    }
    assert bundle.traces[..|bundle.traces|] == bundle.traces;
    ok := true;
  }

  /** Runs a suite over recorded traces. Its report can be read as it is, says the truth in every row
      and has one row for every client that takes part and every scenario. */
  method Run(suite: Suite, bundle: Bundle, source: string, texts: Texts) returns (result: Result<Report>)
    ensures result.Ok? <==> source in {"fixture", "live"} && SuiteOk(suite, texts) && BundleOk(bundle, suite, texts)
    ensures result.Ok? ==>
              && Acceptable(result.value, texts) && Normal(result.value)
              && result.value.contract == suite.contract && result.value.suite == suite.version && result.value.source == source
              && (forall i :: 0 <= i < |result.value.rows| ==> RowIsTrue(result.value.rows[i], suite, bundle))
              && forall c: Client, k :: Takes(bundle, c) && 0 <= k < |suite.scenarios| ==>
                   HasRow(result.value.rows, c, suite.scenarios[k].id)
  {
    if (source != "fixture" && source != "live") || !SuiteOk(suite, texts) {
      return Rejected;
    }
    var valid := CheckBundle(bundle, suite, texts);
    if !valid {
      return Rejected;
    }
    var clients := TakingPart(bundle);
    var scenarios := K.Sort(suite.scenarios, ScenarioKey);
    SortedScenarios(suite, texts);
    var rows, aggregate := RunClients(suite, bundle, clients, scenarios, texts);
    RowsRead(rows, clients, suite, bundle, texts);
    assert HasRow(rows, clients[0], suite.scenarios[0].id);
    var report := Report(suite.contract, suite.version, source, AllPass(aggregate), aggregate, rows);
    RowsMakeAReport(report, texts);
    result := Ok(Normalize(report));
  }

  /** The scenarios of a suite, in order. */
  ghost predicate Ordered(scenarios: seq<Scenario>, suite: Suite, texts: Texts) {
    && K.StrictlySorted(scenarios, ScenarioKey) && (forall s :: s in scenarios <==> s in suite.scenarios)
    && forall i :: 0 <= i < |scenarios| ==> texts.id(scenarios[i].id)
  }

  predicate Before(clients: seq<Client>, client: Client) {
    forall c :: c in clients ==> ClientRank(c) < ClientRank(client)
  }

  method AddClient(rows: seq<Row>, aggregate: Aggregate, suite: Suite, bundle: Bundle, ghost clients: seq<Client>, client: Client,
                   scenarios: seq<Scenario>, texts: Texts) returns (all: seq<Row>, total: Aggregate)
    requires TracesOk(bundle, texts) && Ordered(scenarios, suite, texts)
    requires RowsOf(rows, clients, suite, bundle, texts) && aggregate == Tally(rows) && Takes(bundle, client) && Before(clients, client)
    ensures RowsOf(all, clients + [client], suite, bundle, texts) && total == Tally(all)
  {
    var more := RunClient(client, scenarios, bundle, suite.contract, texts);
    MoreRows(rows, more, clients, client, scenarios, suite, bundle, texts);
    TallyConcat(rows, more);
    total := Aggregated(aggregate, more);
    all := rows + more;
  }

  /** The rows of all clients, and their counts. */
  method RunClients(suite: Suite, bundle: Bundle, clients: seq<Client>, scenarios: seq<Scenario>, texts: Texts)
    returns (rows: seq<Row>, aggregate: Aggregate)
    requires TracesOk(bundle, texts) && Ordered(scenarios, suite, texts)
    requires forall i :: 0 <= i < |clients| ==> Takes(bundle, clients[i]) && Before(clients[..i], clients[i])
    ensures RowsOf(rows, clients, suite, bundle, texts) && aggregate == Tally(rows)
  {
    rows, aggregate := [], Aggregate(0, 0, 0, 0);
    NoRows(suite, bundle, texts);
    for c := 0 to |clients|
      invariant RowsOf(rows, clients[..c], suite, bundle, texts) && aggregate == Tally(rows)
    {
      rows, aggregate := AddClient(rows, aggregate, suite, bundle, clients[..c], clients[c], scenarios, texts);
      assert clients[..c + 1] == clients[..c] + [clients[c]];
    }
    assert clients[..|clients|] == clients;
  }

  /** What the rows of all clients say, pair by pair. */
  lemma {:induction false} RowsRead(rows: seq<Row>, clients: seq<Client>, suite: Suite, bundle: Bundle, texts: Texts)
    requires RowsOf(rows, clients, suite, bundle, texts)
    ensures forall i :: 0 <= i < |rows| ==> RowOk(rows[i], texts) && RowIsTrue(rows[i], suite, bundle)
    ensures forall client, k :: client in clients && 0 <= k < |suite.scenarios| ==> HasRow(rows, client, suite.scenarios[k].id)
  {
    forall i | 0 <= i < |rows|
      ensures RowOk(rows[i], texts) && RowIsTrue(rows[i], suite, bundle)
    {
      assert RowFits(rows, i, clients, suite, bundle, texts);
    }
    forall client, k | client in clients && 0 <= k < |suite.scenarios|
      ensures HasRow(rows, client, suite.scenarios[k].id)
    {
      var c :| 0 <= c < |clients| && clients[c] == client;
      assert PairHasRow(rows, clients, suite, c, k);
    }
  }

  lemma {:induction false} NoRows(suite: Suite, bundle: Bundle, texts: Texts)
    ensures RowsOf([], [], suite, bundle, texts)
  {
  }

  lemma {:induction false} RowsMakeAReport(r: Report, texts: Texts)
    requires texts.version(r.contract) && texts.version(r.suite) && r.source in {"fixture", "live"} && r.rows != []
    requires K.StrictlySorted(r.rows, RowKey) && forall i :: 0 <= i < |r.rows| ==> RowOk(r.rows[i], texts)
    requires r.aggregate == Tally(r.rows) && r.gatesPassed == AllPass(r.aggregate)
    ensures Acceptable(r, texts) && Normal(r) && Normalize(r) == r
  {
    SortedIsDistinct(r.rows, RowKey);
    NormalStays(r);
  }

  predicate Live(client: Client) {
    client != Synthetic
  }

  /** What a row has to say about a scenario that a live client was asked for: a client that fails, or
      whose trace is not valid, is an adapter error. */
  ghost predicate LiveVerdict(v: Verdict, s: Scenario, answer: Option<Trace>, contract: string, texts: Texts) {
    if answer.None? || answer.value.contract != contract || !TraceOk(answer.value.events, texts.code)
    then v == Verdict(Error, [AdapterError])
    else VerdictIs(v, s, answer.value, contract)
  }

  /** Asks one live client for a trace of every scenario. */
  method RunAdapter(suite: Suite, client: Client, answers: Scenario -> Option<Trace>, texts: Texts) returns (result: Result<Report>)
    ensures result.Ok? <==> SuiteOk(suite, texts) && Live(client)
    ensures result.Ok? ==>
              && Acceptable(result.value, texts) && Normal(result.value)
              && result.value.contract == suite.contract && result.value.suite == suite.version && result.value.source == "live"
              && var sorted := K.Sort(suite.scenarios, ScenarioKey);
                 && ClientRows(result.value.rows, client, sorted, texts)
                 && forall i :: 0 <= i < |sorted| ==>
                      LiveVerdict(result.value.rows[i].verdict, sorted[i], answers(sorted[i]), suite.contract, texts)
  {
    if !SuiteOk(suite, texts) || !Live(client) {
      return Rejected;
    }
    var scenarios := K.Sort(suite.scenarios, ScenarioKey);
    SortedScenarios(suite, texts);
    var rows := AskAll(client, scenarios, answers, suite.contract, texts);
    RowsFollow([], rows, client, scenarios, texts);
    assert [] + rows == rows && suite.scenarios[0] in scenarios;
    var aggregate := Aggregated(Aggregate(0, 0, 0, 0), rows);
    var report := Report(suite.contract, suite.version, "live", AllPass(aggregate), aggregate, rows);
    RowsMakeAReport(report, texts);
    result := Ok(Normalize(report));
  }

  method AskAll(client: Client, scenarios: seq<Scenario>, answers: Scenario -> Option<Trace>, contract: string, texts: Texts)
    returns (rows: seq<Row>)
    requires forall i :: 0 <= i < |scenarios| ==> texts.id(scenarios[i].id)
    ensures ClientRows(rows, client, scenarios, texts)
    ensures forall i :: 0 <= i < |scenarios| ==> LiveVerdict(rows[i].verdict, scenarios[i], answers(scenarios[i]), contract, texts)
  {
    rows := [];
    for i := 0 to |scenarios|
      invariant ClientRows(rows, client, scenarios[..i], texts)
      invariant forall j :: 0 <= j < i ==> LiveVerdict(rows[j].verdict, scenarios[j], answers(scenarios[j]), contract, texts)
    {
      var v := AskLive(scenarios[i], answers(scenarios[i]), contract, texts);
      assert scenarios[..i + 1] == scenarios[..i] + [scenarios[i]];
      rows := rows + [Row(client, scenarios[i].id, v)];
    }
    assert scenarios[..|scenarios|] == scenarios;
  }

  method AskLive(s: Scenario, answer: Option<Trace>, contract: string, texts: Texts) returns (v: Verdict)
    ensures LiveVerdict(v, s, answer, contract, texts)
    ensures (v.status.Pass? <==> v.reasons == []) && ConformanceScenario.StrictlySorted(v.reasons)
  {
    v := Verdict(Error, [AdapterError]);
    if answer.Some? {
      var valid := ValidateTrace(answer.value.events, texts.code);
      if valid && answer.value.contract == contract {
        v := ValidateScenario(s, answer.value, contract);
        VerdictIsOk(v, s, answer.value, contract);
      }
    }
  }

  lemma {:induction false} SortedScenarios(suite: Suite, texts: Texts)
    requires SuiteOk(suite, texts)
    ensures Ordered(K.Sort(suite.scenarios, ScenarioKey), suite, texts)
  {
    K.SortSorts(suite.scenarios, ScenarioKey);
    var sorted := K.Sort(suite.scenarios, ScenarioKey);
    forall s: Scenario
      ensures s in sorted <==> s in suite.scenarios
    {
      K.SortHas(suite.scenarios, ScenarioKey, s);
    }
    forall i | 0 <= i < |sorted|
      ensures texts.id(sorted[i].id)
    {
      assert sorted[i] in suite.scenarios;
    }
  }

  /** The clients with a trace, in order. */
  method TakingPart(bundle: Bundle) returns (clients: seq<Client>)
    ensures forall c :: c in clients <==> Takes(bundle, c)
    ensures forall i :: 0 <= i < |clients| ==> Takes(bundle, clients[i]) && Before(clients[..i], clients[i])
    ensures bundle.traces != [] ==> clients != []
  {
    clients := [];
    for i := 0 to |CLIENTS|
      invariant forall c :: c in clients <==> ClientRank(c) < i && Takes(bundle, c)
      invariant forall i :: 0 <= i < |clients| ==> Takes(bundle, clients[i]) && Before(clients[..i], clients[i])
    {
      assert ClientRank(CLIENTS[i]) == i && forall c :: ClientRank(c) == i ==> c == CLIENTS[i];
      if Takes(bundle, CLIENTS[i]) {
        var longer := clients + [CLIENTS[i]];
        assert forall j :: 0 <= j < |clients| ==> longer[..j] == clients[..j];
        assert longer[..|clients|] == clients;
        clients := longer;
      }
    }
    if bundle.traces != [] {
      assert Takes(bundle, bundle.traces[0].client);
    }
  }

  /** A report that was run and rendered is read as the same report exactly when its text is not too
      long to be read; no run checks that. */
  lemma {:induction false} ReportIsReadAsItIs(c: Codec, r: Report, texts: Texts)
    requires CodecOk(c) && Acceptable(r, texts) && Normal(r)
    ensures ReadReport(c, Render(c, r), texts) == if |Render(c, r)| <= MAX_INPUT_BYTES then Ok(r) else Rejected
  {
    NormalStays(r);
  }
}
