/** How a maintenance proposal becomes the next catalog generation, and how the worker predicts,
    before publishing, what the published entries will be. */
module MaintenanceMerge {
  import opened Options
  import opened CatalogTypes

  datatype CatalogEvidence = CatalogEvidence(alias: string, namespace: string, tag: string, kind: string, digest: Hash)

  datatype Fact = Fact(alias: string, fingerprint: Hash)

  /** What one maintenance run works on. `selected` are original client entries. */
  datatype Input = Input(selected: seq<Entry>, evidence: seq<CatalogEvidence>, facts: seq<Fact>)

  datatype Proposal = Proposal(catalog: Option<seq<Entry>>, missingEvidence: seq<string>)

  /** The predicted digest of one published entry. */
  datatype Published = Published(namespace: string, tag: string, entryHash: Hash)

  predicate HasKey(e: Entry, namespace: string, tag: string) {
    e.namespace == namespace && e.tag == tag
  }

  predicate SameKey(a: Entry, b: Entry) {
    HasKey(a, b.namespace, b.tag)
  }

  /** Index of the first entry with a key, or the length. */
  function FindEntry(entries: seq<Entry>, namespace: string, tag: string): (i: nat)
    ensures i <= |entries|
    ensures i < |entries| ==> HasKey(entries[i], namespace, tag)
    ensures forall j :: 0 <= j < i ==> !HasKey(entries[j], namespace, tag)
  {
    if entries == [] || HasKey(entries[0], namespace, tag) then 0 else 1 + FindEntry(entries[1..], namespace, tag)
  }

  function Candidate(p: Proposal, selected: Entry): Option<Entry> {
    if p.catalog.None? then None else
    var i := FindEntry(p.catalog.value, selected.namespace, selected.tag);
    if i == |p.catalog.value| then None else Some(p.catalog.value[i])
  }

  // ---------------------------------------------------------------- evidence

  function FactFor(facts: seq<Fact>, alias: string): Option<Fact> {
    if facts == [] then None else if facts[0].alias == alias then Some(facts[0]) else FactFor(facts[1..], alias)
  }

  function EvidenceFor(evidence: seq<CatalogEvidence>, alias: string): Option<CatalogEvidence> {
    if evidence == [] then None
    else if evidence[0].alias == alias then Some(evidence[0])
    else EvidenceFor(evidence[1..], alias)
  }

  /** The durable form of one alias that a candidate cites, or nothing when it belongs to another card or
      is unknown. */
  function RefOf(in_: Input, namespace: string, tag: string, alias: string): Option<string> {
    match EvidenceFor(in_.evidence, alias)
    case Some(e) => if e.namespace != namespace || e.tag != tag then None else Some("client:" + e.kind + ":" + e.digest)
    case None => match FactFor(in_.facts, alias) case None => None case Some(f) => Some("fact:" + f.fingerprint)
  }

  function DurableRefs(in_: Input, namespace: string, tag: string, aliases: seq<string>): Option<seq<string>> {
    if aliases == [] then Some([])
    else if RefOf(in_, namespace, tag, aliases[0]).None? then None
    else match DurableRefs(in_, namespace, tag, aliases[1..])
      case None => None
      case Some(rest) => Some([RefOf(in_, namespace, tag, aliases[0]).value] + rest)
  }

  // ---------------------------------------------------------------- comparisons

  /** Two descriptions are equal up to the evidence they cite. */
  predicate DescriptionEqual(a: Entry, b: Entry) {
    a.desc.(evidenceRefs := []) == b.desc.(evidenceRefs := [])
  }

  predicate SameEntryIdentityAndSources(a: Entry, b: Entry) {
    && SameKey(a, b) && a.name == b.name && a.projectId == b.projectId && a.projectKey == b.projectKey
    && a.owner == b.owner && a.status == b.status && a.evidence == b.evidence
    && if a.source == b.source then a.declaredSummary == b.declaredSummary
       else a.source == ModelDerived && b.source == ClientDeclared && b.desc.summary != "" && a.declaredSummary == b.desc.summary
  }

  predicate EditableOnly(candidate: Entry, selected: Entry) {
    && SameKey(candidate, selected) && candidate.name == selected.name && candidate.status == Draft
    && candidate.projectId == "" && candidate.projectKey == "" && candidate.owner == "" && candidate.evidence == []
    && candidate.source == NoProvenance && candidate.declaredSummary == ""
  }

  /** The entry that a candidate description turns `active` into: the client's own summary is kept
      as the declared summary, and the new description is marked as derived. */
  function Derived(active: Entry, candidate: Entry, refs: seq<string>): Entry {
    active.(
      declaredSummary := if active.declaredSummary == "" && active.source == ClientDeclared then active.desc.summary
                         else active.declaredSummary,
      desc := candidate.desc.(evidenceRefs := refs),
      source := ModelDerived)
  }

  /** What publishing makes of a live entry, given the candidate for it. */
  function Target(in_: Input, live: Entry, candidate: Entry): Option<Entry> {
    if DescriptionEqual(live, candidate) then Some(live) else
    match DurableRefs(in_, live.namespace, live.tag, candidate.desc.evidenceRefs)
    case None => None
    case Some(refs) => if refs == [] then None else Some(Derived(live, candidate, refs))
  }

  // ---------------------------------------------------------------- merging

  /** One selected card merged into the entries; nothing when the proposal does not fit. */
  function MergeOne(entries: seq<Entry>, selected: Entry, in_: Input, p: Proposal): Option<seq<Entry>> {
    match Candidate(p, selected)
    case None => None
    case Some(candidate) =>
      if candidate.name != selected.name || candidate.status != Draft then None else
      var i := FindEntry(entries, selected.namespace, selected.tag);
      if i == |entries| || !SameEntryIdentityAndSources(entries[i], selected) || !EditableOnly(candidate, selected) then None
      else match Target(in_, entries[i], candidate)
        case None => None
        case Some(e) => Some(entries[i := e])
  }

  function MergeFrom(entries: seq<Entry>, selected: seq<Entry>, in_: Input, p: Proposal): Option<seq<Entry>>
    decreases |selected|
  {
    if selected == [] then Some(entries)
    else match MergeOne(entries, selected[0], in_, p)
      case None => None
      case Some(next) => MergeFrom(next, selected[1..], in_, p)
  }

  /** The entries to publish; nothing when the proposal does not fit or changes nothing. */
  function Merge(current: seq<Entry>, in_: Input, p: Proposal): Option<seq<Entry>> {
    if p.catalog.None? || p.missingEvidence != [] then None else
    match MergeFrom(current, in_.selected, in_, p)
    case None => None
    case Some(merged) => if merged == current then None else Some(merged)
  }

  /** The merge as the worker performs it, in place on a copy of the live entries. */
  method MergeSelected(current: seq<Entry>, in_: Input, p: Proposal) returns (result: Option<seq<Entry>>)
    ensures result == Merge(current, in_, p)
  {
    if p.catalog.None? || p.missingEvidence != [] {
      return None;
    }
    var merged := new Entry[|current|](i requires 0 <= i < |current| => current[i]);
    assert merged[..] == current;
    var changed := false;
    for k := 0 to |in_.selected|
      invariant MergeFrom(current, in_.selected, in_, p) == MergeFrom(merged[..], in_.selected[k..], in_, p)
      invariant Progress(current, merged[..], in_, p)
      invariant changed <==> merged[..] != current
      modifies merged
    {
      var selected := in_.selected[k];
      assert in_.selected[k..][0] == selected && in_.selected[k..][1..] == in_.selected[k + 1..];
      var candidate := Candidate(p, selected);
      if candidate.None? || candidate.value.name != selected.name || candidate.value.status != Draft {
        return None;
      }
      var i := FindEntry(merged[..], selected.namespace, selected.tag);
      if i == merged.Length || !SameEntryIdentityAndSources(merged[i], selected) || !EditableOnly(candidate.value, selected) {
        return None;
      }
      if DescriptionEqual(merged[i], candidate.value) {
        assert merged[..][i := merged[i]] == merged[..];
        continue;
      }
      var refs := DurableRefs(in_, selected.namespace, selected.tag, candidate.value.desc.evidenceRefs);
      if refs.None? || refs.value == [] {
        return None;
      }
      ghost var before := merged[..];
      MergeProgress(current, before, selected, in_, p);
      merged[i] := Derived(merged[i], candidate.value, refs.value);
      assert merged[..] == before[i := merged[i]];
      MergeChanges(current, before, merged[..], selected, in_, p, i);
      changed := true;
    }
    assert in_.selected[|in_.selected|..] == [];
    return if changed then Some(merged[..]) else None;
  }

  // ---------------------------------------------------------------- prediction

  function PredictOne(entryHash: Entry -> Hash, current: seq<Entry>, selected: Entry, in_: Input, p: Proposal): Option<Published> {
    match Candidate(p, selected)
    case None => None
    case Some(candidate) =>
      if candidate.status != Draft then None else
      var i := FindEntry(current, selected.namespace, selected.tag);
      if i == |current| then None
      else match Target(in_, current[i], candidate)
        case None => None
        case Some(e) => Some(Published(selected.namespace, selected.tag, entryHash(e)))
  }

  function PredictFrom(entryHash: Entry -> Hash, current: seq<Entry>, selected: seq<Entry>, in_: Input, p: Proposal): Option<seq<Published>> {
    if selected == [] then Some([])
    else match PredictOne(entryHash, current, selected[0], in_, p)
      case None => None
      case Some(x) =>
        match PredictFrom(entryHash, current, selected[1..], in_, p)
        case None => None
        case Some(rest) => Some([x] + rest)
  }

  /** The predicted publication; the empty list stands for "no prediction". */
  function Predict(entryHash: Entry -> Hash, current: seq<Entry>, in_: Input, p: Proposal): seq<Published> {
    if p.catalog.None? || p.missingEvidence != [] then []
    else match PredictFrom(entryHash, current, in_.selected, in_, p) case None => [] case Some(x) => x
  }

  function After(out: seq<Published>, rest: Option<seq<Published>>): Option<seq<Published>> {
    match rest case None => None case Some(x) => Some(out + x)
  }

  lemma {:induction false} AfterNothing(rest: Option<seq<Published>>)
    ensures After([], rest) == rest
  {
    if rest.Some? {
      assert [] + rest.value == rest.value;
    }
  }

  lemma {:induction false} AfterOne(out: seq<Published>, x: Published, rest: Option<seq<Published>>)
    ensures After(out, match rest case None => None case Some(y) => Some([x] + y)) == After(out + [x], rest)
  {
    if rest.Some? {
      assert out + ([x] + rest.value) == out + [x] + rest.value;
    }
  }

  method PredictSelected(entryHash: Entry -> Hash, current: seq<Entry>, in_: Input, p: Proposal) returns (out: seq<Published>)
    ensures out == Predict(entryHash, current, in_, p)
  {
    if p.catalog.None? || p.missingEvidence != [] {
      return [];
    }
    out := [];
    assert in_.selected[0..] == in_.selected;
    AfterNothing(PredictFrom(entryHash, current, in_.selected, in_, p));
    for k := 0 to |in_.selected|
      invariant PredictFrom(entryHash, current, in_.selected, in_, p)
                == After(out, PredictFrom(entryHash, current, in_.selected[k..], in_, p))
    {
      var selected := in_.selected[k];
      assert in_.selected[k..][0] == selected && in_.selected[k..][1..] == in_.selected[k + 1..];
      var candidate := Candidate(p, selected);
      if candidate.None? || candidate.value.status != Draft {
        return [];
      }
      var i := FindEntry(current, selected.namespace, selected.tag);
      if i == |current| {
        return [];
      }
      var live := current[i];
      if DescriptionEqual(live, candidate.value) {
        AfterOne(out, Published(live.namespace, live.tag, entryHash(live)),
                 PredictFrom(entryHash, current, in_.selected[k + 1..], in_, p));
        out := out + [Published(live.namespace, live.tag, entryHash(live))];
        continue;
      }
      var refs := DurableRefs(in_, selected.namespace, selected.tag, candidate.value.desc.evidenceRefs);
      if refs.None? || refs.value == [] {
        return [];
      }
      var entry := Derived(live, candidate.value, refs.value);
      AfterOne(out, Published(entry.namespace, entry.tag, entryHash(entry)),
               PredictFrom(entryHash, current, in_.selected[k + 1..], in_, p));
      out := out + [Published(entry.namespace, entry.tag, entryHash(entry))];
    }
    assert in_.selected[|in_.selected|..] == [];
    assert out + [] == out;
  }

  predicate MatchesOne(entryHash: Entry -> Hash, current: seq<Entry>, item: Published) {
    var i := FindEntry(current, item.namespace, item.tag);
    i < |current| && entryHash(current[i]) == item.entryHash
  }

  /** Whether the active entries are the predicted ones: this is how a finished publication is
      recognised after a crash. */
  predicate PublicationMatches(entryHash: Entry -> Hash, current: seq<Entry>, expected: seq<Published>) {
    expected != [] && forall k :: 0 <= k < |expected| ==> MatchesOne(entryHash, current, expected[k])
  }

  /** Whether publishing would alter any predicted entry. */
  predicate PublicationChanges(entryHash: Entry -> Hash, current: seq<Entry>, expected: seq<Published>) {
    exists k, j :: 0 <= k < |expected| && 0 <= j < |current|
      && HasKey(current[j], expected[k].namespace, expected[k].tag) && entryHash(current[j]) != expected[k].entryHash
  }

  // ---------------------------------------------------------------- what a merge does

  /** Every entry is either untouched or exactly what its candidate turns it into. */
  ghost predicate TouchedOnce(in_: Input, p: Proposal, was: Entry, now: Entry) {
    now == was || (Candidate(p, was).Some? && Target(in_, was, Candidate(p, was).value) == Some(now)
                   && !DescriptionEqual(was, Candidate(p, was).value))
  }

  ghost predicate Progress(current: seq<Entry>, entries: seq<Entry>, in_: Input, p: Proposal) {
    |entries| == |current| && forall j :: 0 <= j < |current| ==> TouchedOnce(in_, p, current[j], entries[j])
  }

  /** Deriving is idempotent: a derived entry already has its candidate's description. */
  lemma {:induction false} TargetIsFixpoint(in_: Input, live: Entry, candidate: Entry)
    ensures Target(in_, live, candidate).Some? ==>
              var e := Target(in_, live, candidate).value;
              && SameKey(e, live) && Target(in_, e, candidate) == Some(e)
  {
  }

  lemma {:induction false} SameKeysSameIndex(a: seq<Entry>, b: seq<Entry>, namespace: string, tag: string)
    requires |a| == |b| && forall j :: 0 <= j < |a| ==> SameKey(a[j], b[j])
    ensures FindEntry(a, namespace, tag) == FindEntry(b, namespace, tag)
  {
    if a != [] {
      assert SameKey(a[0], b[0]);
      assert forall j :: 0 <= j < |a[1..]| ==> a[1..][j] == a[j + 1] && b[1..][j] == b[j + 1];
      SameKeysSameIndex(a[1..], b[1..], namespace, tag);
    }
  }

  lemma {:induction false} ProgressKeepsKeys(current: seq<Entry>, entries: seq<Entry>, in_: Input, p: Proposal)
    requires Progress(current, entries, in_, p)
    ensures forall j :: 0 <= j < |entries| ==> SameKey(entries[j], current[j])
  {
    forall j | 0 <= j < |entries|
      ensures SameKey(entries[j], current[j])
    {
      assert TouchedOnce(in_, p, current[j], entries[j]);
    }
  }

  /** The same candidate serves every entry with the key. */
  lemma {:induction false} CandidateByKey(p: Proposal, a: Entry, b: Entry)
    requires SameKey(a, b)
    ensures Candidate(p, a) == Candidate(p, b)
  {
  }

  /** Merging one more card keeps the progress; a card that was merged before is left alone. */
  lemma {:induction false} MergeProgress(current: seq<Entry>, entries: seq<Entry>, selected: Entry, in_: Input, p: Proposal)
    requires Progress(current, entries, in_, p) && MergeOne(entries, selected, in_, p).Some?
    ensures Progress(current, MergeOne(entries, selected, in_, p).value, in_, p)
    ensures var i := FindEntry(current, selected.namespace, selected.tag);
            && i < |current| && Candidate(p, current[i]).Some?
            && Target(in_, current[i], Candidate(p, current[i]).value) == Some(MergeOne(entries, selected, in_, p).value[i])
            && forall j :: 0 <= j < |current| && j != i ==> MergeOne(entries, selected, in_, p).value[j] == entries[j]
  {
    ProgressKeepsKeys(current, entries, in_, p);
    SameKeysSameIndex(entries, current, selected.namespace, selected.tag);
    var i := FindEntry(current, selected.namespace, selected.tag);
    CandidateByKey(p, current[i], selected);
    var candidate := Candidate(p, selected).value;
    assert TouchedOnce(in_, p, current[i], entries[i]);
    TargetIsFixpoint(in_, current[i], candidate);
  }

  lemma {:induction false} MergeChanges(current: seq<Entry>, before: seq<Entry>, after: seq<Entry>, selected: Entry,
                                        in_: Input, p: Proposal, i: nat)
    requires Progress(current, before, in_, p) && MergeOne(before, selected, in_, p) == Some(after)
    requires i == FindEntry(before, selected.namespace, selected.tag) && i < |before| && Candidate(p, selected).Some?
    requires !DescriptionEqual(before[i], Candidate(p, selected).value)
    ensures after != current && Progress(current, after, in_, p)
  {
    MergeProgress(current, before, selected, in_, p);
    ProgressKeepsKeys(current, before, in_, p);
    SameKeysSameIndex(before, current, selected.namespace, selected.tag);
    CandidateByKey(p, current[i], selected);
    assert TouchedOnce(in_, p, current[i], before[i]);
    TargetIsFixpoint(in_, current[i], Candidate(p, selected).value);
    assert before[i] == current[i];
    assert after[i].desc.(evidenceRefs := []) != current[i].desc.(evidenceRefs := []);
  }

  /** An entry that already is what its candidate would make of it. */
  ghost predicate Settled(in_: Input, p: Proposal, e: Entry) {
    Candidate(p, e).Some? && Target(in_, e, Candidate(p, e).value) == Some(e)
  }

  lemma {:induction false} SettledStays(entries: seq<Entry>, selected: seq<Entry>, in_: Input, p: Proposal, j: nat)
    requires j < |entries| && Settled(in_, p, entries[j]) && MergeFrom(entries, selected, in_, p).Some?
    ensures |MergeFrom(entries, selected, in_, p).value| == |entries|
    ensures MergeFrom(entries, selected, in_, p).value[j] == entries[j]
    decreases |selected|
  {
    if selected != [] {
      var i := FindEntry(entries, selected[0].namespace, selected[0].tag);
      CandidateByKey(p, entries[i], selected[0]);
      SettledStays(MergeOne(entries, selected[0], in_, p).value, selected[1..], in_, p, j);
    }
  }

  /** One merged card agrees with its prediction, whatever is merged afterwards. */
  lemma {:induction false} OneAgrees(entryHash: Entry -> Hash, current: seq<Entry>, entries: seq<Entry>, selected: Entry,
                                     rest: seq<Entry>, in_: Input, p: Proposal)
    requires Progress(current, entries, in_, p) && MergeOne(entries, selected, in_, p).Some?
    requires MergeFrom(MergeOne(entries, selected, in_, p).value, rest, in_, p).Some?
    requires Progress(current, MergeFrom(MergeOne(entries, selected, in_, p).value, rest, in_, p).value, in_, p)
    ensures var merged := MergeFrom(MergeOne(entries, selected, in_, p).value, rest, in_, p).value;
            var x := PredictOne(entryHash, current, selected, in_, p);
            x.Some? && MatchesOne(entryHash, merged, x.value)
  {
    MergeProgress(current, entries, selected, in_, p);
    var next := MergeOne(entries, selected, in_, p).value;
    var merged := MergeFrom(next, rest, in_, p).value;
    var i := FindEntry(current, selected.namespace, selected.tag);
    CandidateByKey(p, current[i], selected);
    TargetIsFixpoint(in_, current[i], Candidate(p, selected).value);
    CandidateByKey(p, next[i], selected);
    SettledStays(next, rest, in_, p, i);
    ProgressKeepsKeys(current, merged, in_, p);
    SameKeysSameIndex(merged, current, selected.namespace, selected.tag);
  }

  lemma {:induction false} MergeFromProgress(current: seq<Entry>, entries: seq<Entry>, selected: seq<Entry>, in_: Input, p: Proposal)
    requires Progress(current, entries, in_, p) && MergeFrom(entries, selected, in_, p).Some?
    ensures Progress(current, MergeFrom(entries, selected, in_, p).value, in_, p)
    decreases |selected|
  {
    if selected != [] {
      MergeProgress(current, entries, selected[0], in_, p);
      MergeFromProgress(current, MergeOne(entries, selected[0], in_, p).value, selected[1..], in_, p);
    }
  }

  /** The two passes agree: every card that merging handles was predicted, with the digest it ends
      up with. */
  lemma {:induction false} AllAgree(entryHash: Entry -> Hash, current: seq<Entry>, entries: seq<Entry>, selected: seq<Entry>,
                                    in_: Input, p: Proposal)
    requires Progress(current, entries, in_, p) && MergeFrom(entries, selected, in_, p).Some?
    ensures var merged, x := MergeFrom(entries, selected, in_, p).value, PredictFrom(entryHash, current, selected, in_, p);
            && x.Some? && |x.value| == |selected|
            && (forall k :: 0 <= k < |selected| ==> HasKey(selected[k], x.value[k].namespace, x.value[k].tag))
            && (forall k :: 0 <= k < |selected| ==> MatchesOne(entryHash, merged, x.value[k]))
    decreases |selected|
  {
    if selected != [] {
      var next, rest := MergeOne(entries, selected[0], in_, p).value, selected[1..];
      MergeProgress(current, entries, selected[0], in_, p);
      MergeFromProgress(current, next, rest, in_, p);
      OneAgrees(entryHash, current, entries, selected[0], rest, in_, p);
      AllAgree(entryHash, current, next, rest, in_, p);
    }
  }

  lemma {:induction false} StartIsProgress(current: seq<Entry>, in_: Input, p: Proposal)
    ensures Progress(current, current, in_, p)
  {
  }

  /** Whenever a generation is about to be published, the prediction made from the same base is not
      empty, covers every selected card, and is recognised in the new generation. */
  lemma {:induction false} PredictionHolds(entryHash: Entry -> Hash, current: seq<Entry>, in_: Input, p: Proposal)
    requires Merge(current, in_, p).Some?
    ensures var expected := Predict(entryHash, current, in_, p);
            && |expected| == |in_.selected| > 0
            && (forall k :: 0 <= k < |expected| ==> HasKey(in_.selected[k], expected[k].namespace, expected[k].tag))
            && PublicationMatches(entryHash, Merge(current, in_, p).value, expected)
  {
    StartIsProgress(current, in_, p);
    AllAgree(entryHash, current, current, in_.selected, in_, p);
  }

  /** The identity of a card, and everything the client supplied for it. */
  ghost predicate SameSource(a: Entry, b: Entry) {
    && SameKey(a, b) && a.name == b.name && a.projectId == b.projectId && a.projectKey == b.projectKey
    && a.owner == b.owner && a.status == b.status && a.evidence == b.evidence
    && EffectiveDeclaredSource(a) == EffectiveDeclaredSource(b)
  }

  ghost predicate IsSelected(e: Entry, selected: seq<Entry>) {
    exists k :: 0 <= k < |selected| && SameKey(e, selected[k])
  }

  /** A merge changes selected cards only, and of those only the description: identity, client
      evidence and the effective declared summary stay, and what did change is marked as derived. */
  lemma {:induction false} MergeKeepsSources(current: seq<Entry>, in_: Input, p: Proposal)
    requires Merge(current, in_, p).Some?
    ensures var merged := Merge(current, in_, p).value;
            && |merged| == |current|
            && (forall j :: 0 <= j < |current| ==>
                  && SameSource(current[j], merged[j])
                  && (merged[j] != current[j] ==> merged[j].source == ModelDerived && IsSelected(current[j], in_.selected)))
  {
    StartIsProgress(current, in_, p);
    MergeFromProgress(current, current, in_.selected, in_, p);
    var merged := Merge(current, in_, p).value;
    forall j | 0 <= j < |current|
      ensures SameSource(current[j], merged[j])
      ensures merged[j] != current[j] ==> merged[j].source == ModelDerived && IsSelected(current[j], in_.selected)
    {
      TouchedKeepsSource(in_, p, current[j], merged[j]);
      UnselectedStays(current, current, in_.selected, in_, p, j);
    }
  }

  lemma {:induction false} TouchedKeepsSource(in_: Input, p: Proposal, before: Entry, after: Entry)
    requires TouchedOnce(in_, p, before, after)
    ensures SameSource(before, after) && (after != before ==> after.source == ModelDerived)
  {
  }

  lemma {:induction false} UnselectedStays(current: seq<Entry>, entries: seq<Entry>, selected: seq<Entry>, in_: Input, p: Proposal, j: nat)
    requires j < |current| && Progress(current, entries, in_, p) && MergeFrom(entries, selected, in_, p).Some?
    ensures |MergeFrom(entries, selected, in_, p).value| == |current|
    ensures !IsSelected(current[j], selected) ==> MergeFrom(entries, selected, in_, p).value[j] == entries[j]
    decreases |selected|
  {
    if selected != [] {
      var next := MergeOne(entries, selected[0], in_, p).value;
      MergeProgress(current, entries, selected[0], in_, p);
      UnselectedStays(current, next, selected[1..], in_, p, j);
      if !IsSelected(current[j], selected) {
        assert !SameKey(current[j], selected[0]);
        forall k | 0 <= k < |selected[1..]|
          ensures !SameKey(current[j], selected[1..][k])
        {
          assert selected[1..][k] == selected[k + 1];
        }
      }
    }
  }

  /** The policy guard accepts exactly the derived entries whose source was registered by a client
      or derived from one; a manual card cannot be overwritten. */
  lemma {:induction false} GuardAcceptsRegisteredSources(current: seq<Entry>, in_: Input, p: Proposal, j: nat)
    requires Merge(current, in_, p).Some? && j < |current|
    ensures var merged := Merge(current, in_, p).value;
            |merged| == |current| && (SameReviewSourceIdentity(current[j], merged[j])
              <==> merged[j] == current[j] || current[j].source == ClientDeclared || current[j].source == ModelDerived)
  {
    MergeKeepsSources(current, in_, p);
    var merged := Merge(current, in_, p).value;
    assert SameSource(current[j], merged[j]);
  }

  /** Publishing is a fixpoint: merging the same proposal into its own result changes nothing. */
  lemma {:induction false} MergeIsFixpoint(current: seq<Entry>, in_: Input, p: Proposal)
    requires Merge(current, in_, p).Some?
    ensures Merge(Merge(current, in_, p).value, in_, p).None?
  {
    StartIsProgress(current, in_, p);
    MergeFromProgress(current, current, in_.selected, in_, p);
    SelectedSettled(current, current, in_.selected, in_, p);
    var merged := MergeFrom(current, in_.selected, in_, p).value;
    AllSettled(merged, in_.selected, in_, p);
  }

  ghost predicate SettledFor(entries: seq<Entry>, selected: Entry, in_: Input, p: Proposal) {
    var i := FindEntry(entries, selected.namespace, selected.tag);
    i < |entries| && Settled(in_, p, entries[i])
  }

  lemma {:induction false} SelectedSettled(current: seq<Entry>, entries: seq<Entry>, selected: seq<Entry>, in_: Input, p: Proposal)
    requires Progress(current, entries, in_, p) && MergeFrom(entries, selected, in_, p).Some?
    ensures forall k :: 0 <= k < |selected| ==> SettledFor(MergeFrom(entries, selected, in_, p).value, selected[k], in_, p)
    decreases |selected|
  {
    if selected != [] {
      var s, next, rest := selected[0], MergeOne(entries, selected[0], in_, p).value, selected[1..];
      var merged := MergeFrom(next, rest, in_, p).value;
      MergeProgress(current, entries, s, in_, p);
      MergeFromProgress(current, next, rest, in_, p);
      SelectedSettled(current, next, rest, in_, p);
      var i := FindEntry(current, s.namespace, s.tag);
      CandidateByKey(p, current[i], s);
      TargetIsFixpoint(in_, current[i], Candidate(p, s).value);
      CandidateByKey(p, next[i], s);
      SettledStays(next, rest, in_, p, i);
      ProgressKeepsKeys(current, merged, in_, p);
      SameKeysSameIndex(merged, current, s.namespace, s.tag);
    }
  }

  lemma {:induction false} AllSettled(entries: seq<Entry>, selected: seq<Entry>, in_: Input, p: Proposal)
    requires forall k :: 0 <= k < |selected| ==> SettledFor(entries, selected[k], in_, p)
    ensures MergeFrom(entries, selected, in_, p).Some? ==> MergeFrom(entries, selected, in_, p).value == entries
    decreases |selected|
  {
    if selected != [] && MergeOne(entries, selected[0], in_, p).Some? {
      var i := FindEntry(entries, selected[0].namespace, selected[0].tag);
      assert SettledFor(entries, selected[0], in_, p);
      CandidateByKey(p, entries[i], selected[0]);
      assert MergeOne(entries, selected[0], in_, p).value == entries;
      AllSettled(entries, selected[1..], in_, p);
    }
  }

  lemma {:induction false} KeyIsUnique(entries: seq<Entry>, namespace: string, tag: string, j: nat)
    requires UniqueKeys(entries) && j < |entries| && HasKey(entries[j], namespace, tag)
    ensures FindEntry(entries, namespace, tag) == j
  {
    var i := FindEntry(entries, namespace, tag);
    assert HasKey(entries[i], namespace, tag);
  }

  /** Nothing is published without first having been announced as a change, which is what makes the
      worker save the originals. */
  lemma {:induction false} PublicationIsAnnounced(entryHash: Entry -> Hash, current: seq<Entry>, in_: Input, p: Proposal)
    requires Merge(current, in_, p).Some? && UniqueKeys(current)
    requires forall a, b :: entryHash(a) == entryHash(b) ==> a == b
    ensures PublicationChanges(entryHash, current, Predict(entryHash, current, in_, p))
  {
    var merged := Merge(current, in_, p).value;
    MergeKeepsSources(current, in_, p);
    PredictionHolds(entryHash, current, in_, p);
    assert exists j :: 0 <= j < |current| && merged[j] != current[j];
    var j :| 0 <= j < |current| && merged[j] != current[j];
    assert SameSource(current[j], merged[j]);
    forall i | 0 <= i < |current|
      ensures SameKey(merged[i], current[i])
    {
      assert SameSource(current[i], merged[i]);
    }
    var k :| 0 <= k < |in_.selected| && SameKey(current[j], in_.selected[k]);
    ChangeIsSeen(entryHash, current, merged, Predict(entryHash, current, in_, p), j, k);
  }

  lemma {:induction false} ChangeIsSeen(entryHash: Entry -> Hash, current: seq<Entry>, merged: seq<Entry>, expected: seq<Published>, j: nat, k: nat)
    requires UniqueKeys(current) && |merged| == |current| && forall i :: 0 <= i < |current| ==> SameKey(merged[i], current[i])
    requires k < |expected| && j < |current| && merged[j] != current[j] && PublicationMatches(entryHash, merged, expected)
    requires HasKey(current[j], expected[k].namespace, expected[k].tag)
    requires forall a, b :: entryHash(a) == entryHash(b) ==> a == b
    ensures PublicationChanges(entryHash, current, expected)
  {
    KeyIsUnique(current, expected[k].namespace, expected[k].tag, j);
    SameKeysSameIndex(merged, current, expected[k].namespace, expected[k].tag);
    assert MatchesOne(entryHash, merged, expected[k]);
    assert entryHash(merged[j]) == expected[k].entryHash && entryHash(current[j]) != entryHash(merged[j]);
  }

  /** The entries that a prediction stands for. */
  function NextEntries(current: seq<Entry>, selected: seq<Entry>, in_: Input, p: Proposal): Option<seq<Entry>> {
    if selected == [] then Some([]) else
    var i := FindEntry(current, selected[0].namespace, selected[0].tag);
    if Candidate(p, selected[0]).None? || i == |current| then None
    else match Target(in_, current[i], Candidate(p, selected[0]).value)
      case None => None
      case Some(e) =>
        match NextEntries(current, selected[1..], in_, p) case None => None case Some(rest) => Some([e] + rest)
  }

  /** The prediction `x` for a selected card stands for the entry `e`. */
  ghost predicate StandsFor(entryHash: Entry -> Hash, current: seq<Entry>, selected: Entry, in_: Input, p: Proposal, x: Published, e: Entry) {
    && x == Published(selected.namespace, selected.tag, entryHash(e))
    && FindEntry(current, x.namespace, x.tag) < |current| && Candidate(p, selected).Some?
    && Target(in_, current[FindEntry(current, x.namespace, x.tag)], Candidate(p, selected).value) == Some(e)
  }

  lemma {:induction false} PredictsOne(entryHash: Entry -> Hash, current: seq<Entry>, selected: seq<Entry>, in_: Input, p: Proposal)
    requires selected != [] && PredictFrom(entryHash, current, selected, in_, p).Some?
    requires NextEntries(current, selected[1..], in_, p).Some?
    ensures var x, rest := PredictFrom(entryHash, current, selected, in_, p).value, PredictFrom(entryHash, current, selected[1..], in_, p);
            rest.Some? && x != [] && x[1..] == rest.value
    ensures var nexts := NextEntries(current, selected, in_, p);
            && nexts.Some? && nexts.value != [] && nexts.value[1..] == NextEntries(current, selected[1..], in_, p).value
            && StandsFor(entryHash, current, selected[0], in_, p, PredictFrom(entryHash, current, selected, in_, p).value[0], nexts.value[0])
  {
  }

  lemma {:induction false} PredictsNextEntries(entryHash: Entry -> Hash, current: seq<Entry>, selected: seq<Entry>, in_: Input, p: Proposal)
    requires PredictFrom(entryHash, current, selected, in_, p).Some?
    ensures var x, nexts := PredictFrom(entryHash, current, selected, in_, p).value, NextEntries(current, selected, in_, p);
            && nexts.Some? && |nexts.value| == |x| == |selected|
            && forall k :: 0 <= k < |x| ==> StandsFor(entryHash, current, selected[k], in_, p, x[k], nexts.value[k])
    decreases |selected|
  {
    if selected != [] {
      var tail := selected[1..];
      PredictsNextEntries(entryHash, current, tail, in_, p);
      PredictsOne(entryHash, current, selected, in_, p);
      var x, nexts := PredictFrom(entryHash, current, selected, in_, p).value, NextEntries(current, selected, in_, p).value;
      forall k | 0 <= k < |x|
        ensures StandsFor(entryHash, current, selected[k], in_, p, x[k], nexts[k])
      {
        if k > 0 {
          assert x[k] == x[1..][k - 1] && nexts[k] == nexts[1..][k - 1] && selected[k] == tail[k - 1];
        }
      }
    }
  }
}
