/** When a maintenance proposal fits the catalog, and what each card becomes. */
module MaintenanceFits {
  import opened Options
  import opened CatalogTypes
  import opened MaintenanceMerge
  import P = MaintenanceProjection

  // ---------------------------------------------------------------- evidence

  /** The first evidence item with this alias belongs to the card, and `ref` names it. */
  predicate CitesEvidence(in_: Input, namespace: string, tag: string, alias: string, ref: string) {
    exists i :: 0 <= i < |in_.evidence| && in_.evidence[i].alias == alias
      && (forall j :: 0 <= j < i ==> in_.evidence[j].alias != alias)
      && in_.evidence[i].namespace == namespace && in_.evidence[i].tag == tag
      && ref == "client:" + in_.evidence[i].kind + ":" + in_.evidence[i].digest
  }

  /** No evidence has this alias, and `ref` names the first fact that has it. */
  predicate CitesFact(in_: Input, alias: string, ref: string) {
    && (forall i :: 0 <= i < |in_.evidence| ==> in_.evidence[i].alias != alias)
    && exists i :: 0 <= i < |in_.facts| && in_.facts[i].alias == alias && (forall j :: 0 <= j < i ==> in_.facts[j].alias != alias)
         && ref == "fact:" + in_.facts[i].fingerprint
  }

  predicate Cites(in_: Input, namespace: string, tag: string, alias: string, ref: string) {
    CitesEvidence(in_, namespace, tag, alias, ref) || CitesFact(in_, alias, ref)
  }

  ghost predicate Citable(in_: Input, namespace: string, tag: string, alias: string) {
    exists ref :: Cites(in_, namespace, tag, alias, ref)
  }

  lemma {:induction false} EvidenceIsFirst(evidence: seq<CatalogEvidence>, alias: string)
    ensures EvidenceFor(evidence, alias).None? <==> forall i :: 0 <= i < |evidence| ==> evidence[i].alias != alias
    ensures EvidenceFor(evidence, alias).Some? ==>
              exists i :: 0 <= i < |evidence| && evidence[i] == EvidenceFor(evidence, alias).value && evidence[i].alias == alias
                          && forall j :: 0 <= j < i ==> evidence[j].alias != alias
  {
    if evidence != [] && evidence[0].alias != alias {
      EvidenceIsFirst(evidence[1..], alias);
      assert forall i :: 1 <= i < |evidence| ==> evidence[i] == evidence[1..][i - 1];
      if EvidenceFor(evidence, alias).Some? {
        var i :| 0 <= i < |evidence[1..]| && evidence[1..][i] == EvidenceFor(evidence[1..], alias).value && evidence[1..][i].alias == alias
                 && forall j :: 0 <= j < i ==> evidence[1..][j].alias != alias;
        assert evidence[i + 1] == EvidenceFor(evidence, alias).value;
      }
    }
  }

  lemma {:induction false} FactIsFirst(facts: seq<Fact>, alias: string)
    ensures FactFor(facts, alias).None? <==> forall i :: 0 <= i < |facts| ==> facts[i].alias != alias
    ensures FactFor(facts, alias).Some? ==>
              exists i :: 0 <= i < |facts| && facts[i] == FactFor(facts, alias).value && facts[i].alias == alias
                          && forall j :: 0 <= j < i ==> facts[j].alias != alias
  {
    if facts != [] && facts[0].alias != alias {
      FactIsFirst(facts[1..], alias);
      assert forall i :: 1 <= i < |facts| ==> facts[i] == facts[1..][i - 1];
      if FactFor(facts, alias).Some? {
        var i :| 0 <= i < |facts[1..]| && facts[1..][i] == FactFor(facts[1..], alias).value && facts[1..][i].alias == alias
                 && forall j :: 0 <= j < i ==> facts[1..][j].alias != alias;
        assert facts[i + 1] == FactFor(facts, alias).value;
      }
    }
  }

  lemma {:induction false} RefIsCited(in_: Input, namespace: string, tag: string, alias: string, ref: string)
    ensures RefOf(in_, namespace, tag, alias) == Some(ref) <==> Cites(in_, namespace, tag, alias, ref)
  {
    EvidenceIsFirst(in_.evidence, alias);
    FactIsFirst(in_.facts, alias);
  }

  /** The aliases of a candidate have durable references exactly when each of them is evidence of this
      very card, or no evidence but a fact of the run; the references are those, one for each alias. */
  lemma {:induction false} RefsIff(in_: Input, namespace: string, tag: string, aliases: seq<string>)
    ensures DurableRefs(in_, namespace, tag, aliases).Some? <==>
              forall i :: 0 <= i < |aliases| ==> Citable(in_, namespace, tag, aliases[i])
    ensures DurableRefs(in_, namespace, tag, aliases).Some? ==>
              var refs := DurableRefs(in_, namespace, tag, aliases).value;
              |refs| == |aliases| && forall i :: 0 <= i < |aliases| ==> Cites(in_, namespace, tag, aliases[i], refs[i])
    decreases |aliases|
  {
    if aliases != [] {
      var rest := aliases[1..];
      RefsIff(in_, namespace, tag, rest);
      assert forall i :: 1 <= i < |aliases| ==> aliases[i] == rest[i - 1];
      var first := RefOf(in_, namespace, tag, aliases[0]);
      if first.Some? {
        RefIsCited(in_, namespace, tag, aliases[0], first.value);
      } else if Citable(in_, namespace, tag, aliases[0]) {
        var ref :| Cites(in_, namespace, tag, aliases[0], ref);
        RefIsCited(in_, namespace, tag, aliases[0], ref);
        assert false;
      }
      if DurableRefs(in_, namespace, tag, aliases).None? && first.Some? {
        var i :| 0 <= i < |rest| && !Citable(in_, namespace, tag, rest[i]);
        assert !Citable(in_, namespace, tag, aliases[i + 1]);
      }
    }
  }

  // ---------------------------------------------------------------- cards

  /** The live entry is the one that was selected, up to its description; a derived one may stand for the
      client's text that was selected. */
  predicate FitsLive(live: Entry, selected: Entry) {
    && live == selected.(desc := live.desc, source := live.source, declaredSummary := live.declaredSummary)
    && if live.source == selected.source then live.declaredSummary == selected.declaredSummary
       else (live.source, selected.source) == (ModelDerived, ClientDeclared) && live.declaredSummary == selected.desc.summary != ""
  }

  /** A draft that has the card's name and a description, and nothing else. */
  predicate FitsCandidate(candidate: Entry, selected: Entry) {
    candidate == Entry(selected.namespace, selected.tag, selected.name, candidate.desc, Draft, "", "", "", [], NoProvenance, "")
  }

  predicate SameText(live: Entry, candidate: Entry) {
    live.desc == candidate.desc.(evidenceRefs := live.desc.evidenceRefs)
  }

  ghost predicate Evidenced(in_: Input, candidate: Entry) {
    && candidate.desc.evidenceRefs != []
    && forall i :: 0 <= i < |candidate.desc.evidenceRefs| ==>
         Citable(in_, candidate.namespace, candidate.tag, candidate.desc.evidenceRefs[i])
  }

  /** Where the card of a selected entry, and its candidate, are found. */
  function LiveIndex(current: seq<Entry>, selected: Entry): nat {
    FindEntry(current, selected.namespace, selected.tag)
  }

  predicate HasCard(current: seq<Entry>, p: Proposal, selected: Entry) {
    p.catalog.Some? && LiveIndex(current, selected) < |current| && LiveIndex(p.catalog.value, selected) < |p.catalog.value|
  }

  ghost predicate CardFits(current: seq<Entry>, in_: Input, p: Proposal, selected: Entry) {
    && HasCard(current, p, selected)
    && var live, candidate := current[LiveIndex(current, selected)], p.catalog.value[LiveIndex(p.catalog.value, selected)];
       && FitsLive(live, selected) && FitsCandidate(candidate, selected)
       && (SameText(live, candidate) || Evidenced(in_, candidate))
  }

  predicate CardChanges(current: seq<Entry>, p: Proposal, selected: Entry) {
    && HasCard(current, p, selected)
    && !SameText(current[LiveIndex(current, selected)], p.catalog.value[LiveIndex(p.catalog.value, selected)])
  }

  /** `now` is `was` with the candidate's description, its aliases made durable one by one; it is marked as
      derived, and keeps the client's own summary. */
  predicate Rewritten(in_: Input, was: Entry, candidate: Entry, now: Entry) {
    && now == was.(desc := candidate.desc.(evidenceRefs := now.desc.evidenceRefs), source := ModelDerived,
                   declaredSummary := if was.declaredSummary == "" && was.source == ClientDeclared then was.desc.summary
                                      else was.declaredSummary)
    && |now.desc.evidenceRefs| == |candidate.desc.evidenceRefs| > 0
    && forall i :: 0 <= i < |now.desc.evidenceRefs| ==>
         Cites(in_, was.namespace, was.tag, candidate.desc.evidenceRefs[i], now.desc.evidenceRefs[i])
  }

  // ---------------------------------------------------------------- one card

  lemma {:induction false} FitsMeans(live: Entry, candidate: Entry, selected: Entry)
    ensures SameEntryIdentityAndSources(live, selected) <==> FitsLive(live, selected)
    ensures EditableOnly(candidate, selected) <==> FitsCandidate(candidate, selected)
    ensures DescriptionEqual(live, candidate) <==> SameText(live, candidate)
  {
    assert DescriptionEqual(live, candidate) ==> live.desc == live.desc.(evidenceRefs := []).(evidenceRefs := live.desc.evidenceRefs);
  }

  lemma {:induction false} TargetMeans(in_: Input, live: Entry, candidate: Entry)
    requires SameKey(candidate, live)
    ensures Target(in_, live, candidate).Some? <==> SameText(live, candidate) || Evidenced(in_, candidate)
    ensures Target(in_, live, candidate).Some? ==>
              var now := Target(in_, live, candidate).value;
              if SameText(live, candidate) then now == live else Rewritten(in_, live, candidate, now)
  {
    FitsMeans(live, candidate, live);
    RefsIff(in_, live.namespace, live.tag, candidate.desc.evidenceRefs);
  }

  /** Merging one card that has not been touched. */
  lemma {:induction false} MergeOneIff(current: seq<Entry>, entries: seq<Entry>, selected: Entry, in_: Input, p: Proposal)
    requires Progress(current, entries, in_, p) && p.catalog.Some?
    requires LiveIndex(current, selected) < |current| ==> entries[LiveIndex(current, selected)] == current[LiveIndex(current, selected)]
    ensures MergeOne(entries, selected, in_, p).Some? <==> CardFits(current, in_, p, selected)
    ensures LiveIndex(entries, selected) == LiveIndex(current, selected)
  {
    ProgressKeepsKeys(current, entries, in_, p);
    SameKeysSameIndex(entries, current, selected.namespace, selected.tag);
    if HasCard(current, p, selected) {
      var live, candidate := current[LiveIndex(current, selected)], p.catalog.value[LiveIndex(p.catalog.value, selected)];
      FitsMeans(live, candidate, selected);
      TargetMeans(in_, live, candidate);
    }
  }

  // ---------------------------------------------------------------- the whole merge

  /** No card that is still to be merged has been touched. */
  ghost predicate Untouched(current: seq<Entry>, entries: seq<Entry>, selected: seq<Entry>) {
    && |entries| == |current|
    && forall k :: 0 <= k < |selected| && LiveIndex(current, selected[k]) < |current| ==>
         entries[LiveIndex(current, selected[k])] == current[LiveIndex(current, selected[k])]
  }

  lemma {:induction false} OthersUntouched(current: seq<Entry>, entries: seq<Entry>, selected: seq<Entry>, in_: Input, p: Proposal)
    requires selected != [] && P.DistinctCards(selected) && Progress(current, entries, in_, p) && Untouched(current, entries, selected)
    requires MergeOne(entries, selected[0], in_, p).Some?
    ensures Untouched(current, MergeOne(entries, selected[0], in_, p).value, selected[1..])
  {
    MergeProgress(current, entries, selected[0], in_, p);
    var rest, next := selected[1..], MergeOne(entries, selected[0], in_, p).value;
    forall k | 0 <= k < |rest| && LiveIndex(current, rest[k]) < |current|
      ensures next[LiveIndex(current, rest[k])] == current[LiveIndex(current, rest[k])]
    {
      assert rest[k] == selected[k + 1] && !SameKey(selected[0], selected[k + 1]);
    }
  }

  lemma {:induction false} DistinctTail(selected: seq<Entry>)
    requires selected != [] && P.DistinctCards(selected)
    ensures P.DistinctCards(selected[1..])
  {
    forall i, j | 0 <= i < j < |selected[1..]|
      ensures !SameKey(selected[1..][i], selected[1..][j])
    {
      assert !SameKey(selected[i + 1], selected[j + 1]);
    }
  }

  ghost predicate AllFit(current: seq<Entry>, in_: Input, p: Proposal, selected: seq<Entry>) {
    forall k :: 0 <= k < |selected| ==> CardFits(current, in_, p, selected[k])
  }

  lemma {:induction false} MergeFromIff(current: seq<Entry>, entries: seq<Entry>, selected: seq<Entry>, in_: Input, p: Proposal)
    requires p.catalog.Some? && Progress(current, entries, in_, p) && P.DistinctCards(selected) && Untouched(current, entries, selected)
    ensures MergeFrom(entries, selected, in_, p).Some? <==> AllFit(current, in_, p, selected)
    decreases |selected|
  {
    if selected != [] {
      var rest := selected[1..];
      MergeOneIff(current, entries, selected[0], in_, p);
      assert forall k :: 1 <= k < |selected| ==> selected[k] == rest[k - 1];
      if MergeOne(entries, selected[0], in_, p).Some? {
        MergeProgress(current, entries, selected[0], in_, p);
        OthersUntouched(current, entries, selected, in_, p);
        DistinctTail(selected);
        MergeFromIff(current, MergeOne(entries, selected[0], in_, p).value, rest, in_, p);
      }
    }
  }

  /** Every selected card has become what its candidate makes of it. */
  lemma {:induction false} SelectedBecome(current: seq<Entry>, in_: Input, p: Proposal, k: nat)
    requires p.catalog.Some? && MergeFrom(current, in_.selected, in_, p).Some? && k < |in_.selected|
    requires CardFits(current, in_, p, in_.selected[k])
    ensures var merged, i := MergeFrom(current, in_.selected, in_, p).value, LiveIndex(current, in_.selected[k]);
            var candidate := p.catalog.value[LiveIndex(p.catalog.value, in_.selected[k])];
            && |merged| == |current|
            && if SameText(current[i], candidate) then merged[i] == current[i] else Rewritten(in_, current[i], candidate, merged[i])
  {
    var s := in_.selected[k];
    var merged, i := MergeFrom(current, in_.selected, in_, p).value, LiveIndex(current, s);
    var candidate := p.catalog.value[LiveIndex(p.catalog.value, s)];
    StartIsProgress(current, in_, p);
    MergeFromProgress(current, current, in_.selected, in_, p);
    SelectedSettled(current, current, in_.selected, in_, p);
    ProgressKeepsKeys(current, merged, in_, p);
    SameKeysSameIndex(merged, current, s.namespace, s.tag);
    CandidateByKey(p, current[i], s);
    CandidateByKey(p, merged[i], s);
    assert SettledFor(merged, s, in_, p) && TouchedOnce(in_, p, current[i], merged[i]);
    TargetMeans(in_, current[i], candidate);
  }

  /** A merge goes through exactly when the proposal is complete, every selected card is live and as it was
      selected, has a draft of its own whose text is the live one or cites evidence of that very card or
      facts of the run, and some text changes. */
  lemma {:induction false} MergeIff(current: seq<Entry>, in_: Input, p: Proposal)
    requires P.DistinctCards(in_.selected)
    ensures Merge(current, in_, p).Some? <==>
              && p.catalog.Some? && p.missingEvidence == [] && AllFit(current, in_, p, in_.selected)
              && exists k :: 0 <= k < |in_.selected| && CardChanges(current, p, in_.selected[k])
  {
    StartIsProgress(current, in_, p);
    if p.catalog.Some? && p.missingEvidence == [] {
      MergeFromIff(current, current, in_.selected, in_, p);
      if AllFit(current, in_, p, in_.selected) {
        MergedIffChanged(current, in_, p);
      }
    }
  }

  lemma {:induction false} MergedIffChanged(current: seq<Entry>, in_: Input, p: Proposal)
    requires p.catalog.Some? && MergeFrom(current, in_.selected, in_, p).Some? && AllFit(current, in_, p, in_.selected)
    ensures MergeFrom(current, in_.selected, in_, p).value != current
            <==> exists k :: 0 <= k < |in_.selected| && CardChanges(current, p, in_.selected[k])
  {
    var merged := MergeFrom(current, in_.selected, in_, p).value;
    StartIsProgress(current, in_, p);
    MergeFromProgress(current, current, in_.selected, in_, p);
    if k :| 0 <= k < |in_.selected| && CardChanges(current, p, in_.selected[k]) {
      SelectedBecome(current, in_, p, k);
    }
    if merged != current {
      var j :| 0 <= j < |current| && merged[j] != current[j];
      OnlySelectedChange(current, in_, p, j);
      var k :| 0 <= k < |in_.selected| && LiveIndex(current, in_.selected[k]) == j;
      SelectedBecome(current, in_, p, k);
      assert CardChanges(current, p, in_.selected[k]);
    }
  }

  /** Only cards that are found for a selected entry change. */
  lemma {:induction false} OnlySelectedChange(current: seq<Entry>, in_: Input, p: Proposal, j: nat)
    requires MergeFrom(current, in_.selected, in_, p).Some? && j < |current|
    ensures |MergeFrom(current, in_.selected, in_, p).value| == |current|
    ensures MergeFrom(current, in_.selected, in_, p).value[j] != current[j] ==>
              exists k :: 0 <= k < |in_.selected| && LiveIndex(current, in_.selected[k]) == j
  {
    StartIsProgress(current, in_, p);
    OnlyFoundChange(current, current, in_.selected, in_, p, j);
  }

  lemma {:induction false} OnlyFoundChange(current: seq<Entry>, entries: seq<Entry>, selected: seq<Entry>, in_: Input, p: Proposal, j: nat)
    requires j < |current| && Progress(current, entries, in_, p) && MergeFrom(entries, selected, in_, p).Some?
    ensures |MergeFrom(entries, selected, in_, p).value| == |current|
    ensures MergeFrom(entries, selected, in_, p).value[j] != entries[j] ==>
              exists k :: 0 <= k < |selected| && LiveIndex(current, selected[k]) == j
    decreases |selected|
  {
    if selected != [] {
      var next := MergeOne(entries, selected[0], in_, p).value;
      MergeProgress(current, entries, selected[0], in_, p);
      OnlyFoundChange(current, next, selected[1..], in_, p, j);
      if k :| 0 <= k < |selected[1..]| && LiveIndex(current, selected[1..][k]) == j {
        assert selected[k + 1] == selected[1..][k];
      } else if MergeFrom(entries, selected, in_, p).value[j] != entries[j] {
        assert LiveIndex(current, selected[0]) == j;
      }
    }
  }

  /** What a merge leaves: a selected card whose text changes is rewritten, and every other entry stays. */
  lemma {:induction false} MergeResult(current: seq<Entry>, in_: Input, p: Proposal, j: nat)
    requires P.DistinctCards(in_.selected) && Merge(current, in_, p).Some? && j < |current|
    ensures p.catalog.Some? && |Merge(current, in_, p).value| == |current|
    ensures forall k :: 0 <= k < |in_.selected| && LiveIndex(current, in_.selected[k]) == j && CardChanges(current, p, in_.selected[k]) ==>
              Rewritten(in_, current[j], p.catalog.value[LiveIndex(p.catalog.value, in_.selected[k])], Merge(current, in_, p).value[j])
    ensures (forall k :: 0 <= k < |in_.selected| && LiveIndex(current, in_.selected[k]) == j ==> !CardChanges(current, p, in_.selected[k])) ==>
              Merge(current, in_, p).value[j] == current[j]
  {
    MergeIff(current, in_, p);
    OnlySelectedChange(current, in_, p, j);
    forall k | 0 <= k < |in_.selected| && LiveIndex(current, in_.selected[k]) == j
      ensures var candidate := p.catalog.value[LiveIndex(p.catalog.value, in_.selected[k])];
              if CardChanges(current, p, in_.selected[k]) then Rewritten(in_, current[j], candidate, Merge(current, in_, p).value[j])
              else Merge(current, in_, p).value[j] == current[j]
    {
      assert CardFits(current, in_, p, in_.selected[k]);
      SelectedBecome(current, in_, p, k);
    }
  }

  /** So every reference of a changed entry names client evidence of that very card, or a fact of the run,
      and there is at least one. */
  lemma {:induction false} ReferencesAreOwn(current: seq<Entry>, in_: Input, p: Proposal, j: nat)
    requires P.DistinctCards(in_.selected) && Merge(current, in_, p).Some? && j < |current|
    ensures |Merge(current, in_, p).value| == |current|
    ensures var now := Merge(current, in_, p).value[j];
            now != current[j] ==>
              && now.desc.evidenceRefs != []
              && forall i :: 0 <= i < |now.desc.evidenceRefs| ==> Owned(in_, now, now.desc.evidenceRefs[i])
  {
    MergeResult(current, in_, p, j);
    var now := Merge(current, in_, p).value[j];
    if now != current[j] {
      var k :| 0 <= k < |in_.selected| && LiveIndex(current, in_.selected[k]) == j && CardChanges(current, p, in_.selected[k]);
      var candidate := p.catalog.value[LiveIndex(p.catalog.value, in_.selected[k])];
      assert Rewritten(in_, current[j], candidate, now);
      forall i | 0 <= i < |now.desc.evidenceRefs|
        ensures Owned(in_, now, now.desc.evidenceRefs[i])
      {
        assert Cites(in_, current[j].namespace, current[j].tag, candidate.desc.evidenceRefs[i], now.desc.evidenceRefs[i]);
      }
    }
  }

  /** `ref` names evidence of the entry's own card, or a fact. */
  ghost predicate Owned(in_: Input, e: Entry, ref: string) {
    || (exists i :: 0 <= i < |in_.evidence| && in_.evidence[i].namespace == e.namespace && in_.evidence[i].tag == e.tag
                    && ref == "client:" + in_.evidence[i].kind + ":" + in_.evidence[i].digest)
    || (exists i :: 0 <= i < |in_.facts| && ref == "fact:" + in_.facts[i].fingerprint)
  }

  // ---------------------------------------------------------------- the prediction

  /** What the prediction needs of a card: less than the merge, which looks at sources and names, too. */
  ghost predicate CardPredicted(current: seq<Entry>, in_: Input, p: Proposal, selected: Entry) {
    && HasCard(current, p, selected)
    && var live, candidate := current[LiveIndex(current, selected)], p.catalog.value[LiveIndex(p.catalog.value, selected)];
       candidate.status == Draft && (SameText(live, candidate) || Evidenced(in_, candidate))
  }

  lemma {:induction false} PredictFromIff(entryHash: Entry -> Hash, current: seq<Entry>, selected: seq<Entry>, in_: Input, p: Proposal)
    requires p.catalog.Some?
    ensures PredictFrom(entryHash, current, selected, in_, p).Some? <==>
              forall k :: 0 <= k < |selected| ==> CardPredicted(current, in_, p, selected[k])
    ensures PredictFrom(entryHash, current, selected, in_, p).Some? ==>
              |PredictFrom(entryHash, current, selected, in_, p).value| == |selected|
    decreases |selected|
  {
    if selected != [] {
      var s := selected[0];
      PredictFromIff(entryHash, current, selected[1..], in_, p);
      assert forall k :: 1 <= k < |selected| ==> selected[k] == selected[1..][k - 1];
      if HasCard(current, p, s) {
        TargetMeans(in_, current[LiveIndex(current, s)], p.catalog.value[LiveIndex(p.catalog.value, s)]);
      }
      assert PredictOne(entryHash, current, s, in_, p).Some? <==> CardPredicted(current, in_, p, s);
    }
  }

  /** There is a prediction exactly when there are selected cards and each has a draft whose text is the live
      one or is evidenced; it has one digest for every card. */
  lemma {:induction false} PredictIff(entryHash: Entry -> Hash, current: seq<Entry>, in_: Input, p: Proposal)
    ensures Predict(entryHash, current, in_, p) != [] <==>
              && p.catalog.Some? && p.missingEvidence == [] && in_.selected != []
              && forall k :: 0 <= k < |in_.selected| ==> CardPredicted(current, in_, p, in_.selected[k])
  {
    if p.catalog.Some? {
      PredictFromIff(entryHash, current, in_.selected, in_, p);
    }
  }
}
