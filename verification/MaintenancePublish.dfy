/** Publishing a maintenance generation, and recognising it after a crash. */
module MaintenancePublish {
  import opened Options
  import opened CatalogTypes
  import opened CatalogJournal
  import opened CatalogInvariant
  import opened CatalogSteps
  import opened CatalogTheorems
  import opened CatalogHolds
  import opened MaintenanceMerge
  import P = MaintenanceProjection

  /** The generation that the worker publishes on top of `base`. */
  function NextGeneration(merged: seq<Entry>, base: Hash, version: string, now: string): Snapshot {
    Snapshot(version, base, now, merged)
  }

  /** One guard for every selected card: its policy revision and the digest of its live entry. */
  function GuardsFor(env: Env, d: Disk, selected: seq<Entry>): Option<seq<Guard>> {
    if selected == [] then Some([]) else
    var live := ActiveEntries(env, d);
    var i := EntryIndex(live, selected[0].projectId);
    if LoadPolicy(d, selected[0].projectId).None? || i < 0 then None
    else match GuardsFor(env, d, selected[1..])
      case None => None
      case Some(rest) =>
        Some([Guard(selected[0].projectId, LoadPolicy(d, selected[0].projectId).value.revision, env.entryHash(live[i]))] + rest)
  }

  lemma {:induction false} GuardsName(env: Env, d: Disk, selected: seq<Entry>)
    ensures GuardsFor(env, d, selected).Some? ==>
              |GuardsFor(env, d, selected).value| == |selected|
              && forall k :: 0 <= k < |selected| ==> GuardsFor(env, d, selected).value[k].projectId == selected[k].projectId
  {
    if selected != [] {
      GuardsName(env, d, selected[1..]);
    }
  }

  /** What the receipt lookup says about a stored proposal: still to be published, already
      published, or of no use any more. */
  datatype Receipt = Unusable | ToPublish | Complete

  /** What the receipt key is computed from: the originals of all cards and of the selected ones, and
      the policy revisions of the selected ones. */
  datatype RunInput = RunInput(context: seq<Entry>, selected: seq<Entry>, revisions: seq<Option<nat>>)

  datatype StoredProposal = StoredProposal(input: RunInput, base: Hash, published: seq<Published>)

  function Revisions(d: Disk, cards: seq<Entry>): seq<Option<nat>> {
    if cards == [] then []
    else
      var p := LoadPolicy(d, cards[0].projectId);
      [if p.Some? then Some(p.value.revision) else None] + Revisions(d, cards[1..])
  }

  function InputOf(u: P.Rules, cache: P.Cache, d: Disk, cards: seq<Entry>, chosen: seq<Entry>): RunInput {
    RunInput(P.RestoreAll(u, cache, cards), P.RestoreAll(u, cache, chosen), Revisions(d, chosen))
  }

  function FindReceipt(env: Env, d: Disk, input: RunInput, stored: StoredProposal): Receipt {
    if input != stored.input then Unusable
    else if d.active == stored.base then ToPublish
    else if PublicationMatches(env.entryHash, ActiveEntries(env, d), stored.published) then Complete
    else Unusable
  }

  /** The live entry of every selected card is the one that publishing was going to make of it. */
  ghost predicate HoldsPublished(live: seq<Entry>, base: seq<Entry>, in_: Input, p: Proposal) {
    var nexts := NextEntries(base, in_.selected, in_, p);
    && nexts.Some? && |nexts.value| == |in_.selected| > 0
    && forall k :: 0 <= k < |in_.selected| ==>
         FindEntry(live, in_.selected[k].namespace, in_.selected[k].tag) < |live|
         && live[FindEntry(live, in_.selected[k].namespace, in_.selected[k].tag)] == nexts.value[k]
  }

  /** A stored proposal is used only by a run with the same originals and policy revisions. It is to be
      published while its base is active; on any other generation it is complete exactly when that holds
      the entries it was going to publish. */
  lemma {:induction false} ReceiptIff(env: Env, d: Disk, input: RunInput, stored: StoredProposal, base: seq<Entry>, in_: Input, p: Proposal)
    requires EnvOk(env) && stored.published == Predict(env.entryHash, base, in_, p)
    ensures FindReceipt(env, d, input, stored) == ToPublish <==> input == stored.input && d.active == stored.base
    ensures FindReceipt(env, d, input, stored) == Complete <==>
              && input == stored.input && d.active != stored.base && stored.published != []
              && HoldsPublished(ActiveEntries(env, d), base, in_, p)
  {
    if stored.published != [] {
      PredictsNextEntries(env.entryHash, base, in_.selected, in_, p);
      var live, x, nexts := ActiveEntries(env, d), stored.published, NextEntries(base, in_.selected, in_, p).value;
      forall k | 0 <= k < |x|
        ensures MatchesOne(env.entryHash, live, x[k]) <==>
                  FindEntry(live, in_.selected[k].namespace, in_.selected[k].tag) < |live|
                  && live[FindEntry(live, in_.selected[k].namespace, in_.selected[k].tag)] == nexts[k]
      {
        assert StandsFor(env.entryHash, base, in_.selected[k], in_, p, x[k], nexts[k]);
      }
    }
  }

  lemma {:induction false} AllProjectsStay(prior: seq<Entry>, next: seq<Entry>)
    requires |prior| == |next| && forall j :: 0 <= j < |prior| ==> prior[j].projectId == next[j].projectId
    ensures forall e :: e in prior ==> EntryIndex(next, e.projectId) >= 0
  {
    forall e | e in prior
      ensures EntryIndex(next, e.projectId) >= 0
    {
      var j :| 0 <= j < |prior| && prior[j] == e;
      assert next[j].projectId == e.projectId;
    }
  }

  lemma {:induction false} ChangeOfNext(env: Env, prior: seq<Entry>, next: seq<Entry>, c: CardChange) returns (j: nat)
    requires c in CardChanges(env, prior, next) && forall e :: e in prior ==> EntryIndex(next, e.projectId) >= 0
    ensures j < |next| && next[j].projectId != "" && CardChangeOf(env, prior, next[j]) == Some(c)
  {
    var e :| e in next && e.projectId != "" && CardChangeOf(env, prior, e).Some? && c == CardChangeOf(env, prior, e).value;
    j :| 0 <= j < |next| && next[j] == e;
  }

  lemma {:induction false} ChangedEntry(env: Env, prior: seq<Entry>, next: seq<Entry>, c: CardChange)
    requires EnvOk(env) && UniqueProjects(prior) && |prior| == |next|
    requires forall j :: 0 <= j < |prior| ==> prior[j].projectId == next[j].projectId
    requires c in CardChanges(env, prior, next)
    ensures exists j :: 0 <= j < |prior| && prior[j] != next[j] && prior[j].projectId == c.projectId
  {
    AllProjectsStay(prior, next);
    var j := ChangeOfNext(env, prior, next, c);
    LastIsOnly(prior, next[j].projectId, j);
    assert prior[j] != next[j] && prior[j].projectId == c.projectId;
  }

  lemma {:induction false} SelectedProject(current: seq<Entry>, in_: Input, p: Proposal, entries: seq<Entry>, selected: seq<Entry>, j: nat)
    requires UniqueKeys(current) && j < |current| && Progress(current, entries, in_, p)
    requires MergeFrom(entries, selected, in_, p).Some? && IsSelected(current[j], selected)
    ensures exists k :: 0 <= k < |selected| && selected[k].projectId == current[j].projectId
    decreases |selected|
  {
    MergeProgress(current, entries, selected[0], in_, p);
    if SameKey(current[j], selected[0]) {
      var i := FindEntry(entries, selected[0].namespace, selected[0].tag);
      ProgressKeepsKeys(current, entries, in_, p);
      SameKeysSameIndex(entries, current, selected[0].namespace, selected[0].tag);
      assert i == j;
      assert TouchedOnce(in_, p, current[j], entries[j]);
      assert selected[0].projectId == current[j].projectId;
    } else {
      var k :| 0 <= k < |selected| && SameKey(current[j], selected[k]);
      assert selected[1..][k - 1] == selected[k];
      SelectedProject(current, in_, p, MergeOne(entries, selected[0], in_, p).value, selected[1..], j);
      var m :| 0 <= m < |selected[1..]| && selected[1..][m].projectId == current[j].projectId;
      assert selected[m + 1] == selected[1..][m];
    }
  }

  /** The guards of a maintenance publication cover every card it changes. */
  lemma {:induction false} GuardsCoverMerge(env: Env, d: Disk, in_: Input, p: Proposal)
    requires EnvOk(env) && UniqueKeys(ActiveEntries(env, d)) && UniqueProjects(ActiveEntries(env, d))
    requires Merge(ActiveEntries(env, d), in_, p).Some? && GuardsFor(env, d, in_.selected).Some?
    ensures var current := ActiveEntries(env, d);
            GuardsCover(GuardsFor(env, d, in_.selected).value, CardChanges(env, current, Merge(current, in_, p).value))
  {
    var current := ActiveEntries(env, d);
    var merged, guards := Merge(current, in_, p).value, GuardsFor(env, d, in_.selected).value;
    MergeKeepsSources(current, in_, p);
    GuardsName(env, d, in_.selected);
    StartIsProgress(current, in_, p);
    forall c | c in CardChanges(env, current, merged)
      ensures exists i :: 0 <= i < |guards| && guards[i].projectId == c.projectId
    {
      assert forall j :: 0 <= j < |current| ==> SameSource(current[j], merged[j]);
      ChangedEntry(env, current, merged, c);
      var j :| 0 <= j < |current| && current[j] != merged[j] && current[j].projectId == c.projectId;
      SelectedProject(current, in_, p, current, in_.selected, j);
      var k :| 0 <= k < |in_.selected| && in_.selected[k].projectId == current[j].projectId;
      assert guards[k].projectId == c.projectId;
    }
  }

  /** Wherever the publication is cut off, the entries of the active generation are the old or the new
      ones, and the new ones have the digests that were predicted. */
  lemma {:induction false} OldOrNew(env: Env, v: World, in_: Input, p: Proposal, version: string, m: Metadata,
                                    guards: seq<Guard>, now: string, done: nat)
    requires EnvOk(env) && Inv(env, false, v) && v.disk.active != ""
    requires Merge(ActiveEntries(env, v.disk), in_, p).Some?
    ensures var current := ActiveEntries(env, v.disk);
            var merged := Merge(current, in_, p).value;
            var next := NextGeneration(merged, v.disk.active, version, now);
            var u := Step(env, v, Event(PublishGuarded(next, v.disk.active, m, guards), now, done));
            && u.disk.policies == v.disk.policies
            && if u.disk.active == v.disk.active then ActiveEntries(env, u.disk) == current
               else u.disk.active == env.hash(next) && ActiveEntries(env, u.disk) == merged
                    && PublicationMatches(env.entryHash, merged, Predict(env.entryHash, current, in_, p))
  {
    var current := ActiveEntries(env, v.disk);
    var next := NextGeneration(Merge(current, in_, p).value, v.disk.active, version, now);
    var event := Event(PublishGuarded(next, v.disk.active, m, guards), now, done);
    var u := Step(env, v, event);
    PredictionHolds(env.entryHash, current, in_, p);
    GuardedMoves(env, v, next, v.disk.active, m, guards, now, done);
    StepGrows(env, v, event);
    ActiveIsStored(env, u);
    ActiveIsStored(env, v);
    assert env.hash(u.disk.snapshots[u.disk.active]) == u.disk.active;
  }

  lemma {:induction false} SameRevisions(v: Disk, u: Disk, a: seq<Entry>, b: seq<Entry>)
    requires u.policies == v.policies && |a| == |b| && forall i :: 0 <= i < |a| ==> a[i].projectId == b[i].projectId
    ensures Revisions(u, a) == Revisions(v, b)
    decreases |a|
  {
    if a != [] {
      SameRevisions(v, u, a[1..], b[1..]);
    }
  }

  /** A run that has stored its proposal and can save the originals of its cards. */
  ghost predicate Prepared(rules: P.Rules, seen: iset<Entry>, cache: P.Cache, current: seq<Entry>, cards: seq<nat>, chosen: seq<nat>,
                           in_: Input, p: Proposal) {
    && P.RulesOk(rules) && P.CacheOk(rules, seen, cache)
    && UniqueKeys(current) && (forall e :: e in current && e.source != ModelDerived ==> e in seen)
    && (forall k :: 0 <= k < |cards| ==> cards[k] < |current| && rules.admits(current[cards[k]]))
    && (forall k :: 0 <= k < |chosen| ==> chosen[k] < |current| && rules.admits(current[chosen[k]]))
    && Merge(current, in_, p).Some? && P.DistinctCards(in_.selected)
    && P.PersistFrom(rules, P.KeepLive(rules, cache, current), current, P.RestoreAll(rules, cache, P.Pick(current, cards)),
                     Predict(rules.entryHash, current, in_, p)).Some?
  }

  /** The projections once the originals are saved. */
  ghost function SavedOriginals(rules: P.Rules, seen: iset<Entry>, cache: P.Cache, current: seq<Entry>, cards: seq<nat>, chosen: seq<nat>,
                                in_: Input, p: Proposal): P.Cache
    requires Prepared(rules, seen, cache, current, cards, chosen, in_, p)
  {
    P.PersistFrom(rules, P.KeepLive(rules, cache, current), current, P.RestoreAll(rules, cache, P.Pick(current, cards)),
                  Predict(rules.entryHash, current, in_, p)).value
  }

  lemma {:induction false} SameInput(rules: P.Rules, seen: iset<Entry>, cache: P.Cache, current: seq<Entry>, cards: seq<nat>, chosen: seq<nat>,
                                     in_: Input, p: Proposal, v: Disk, u: Disk, live: seq<Entry>)
    requires Prepared(rules, seen, cache, current, cards, chosen, in_, p)
    requires live == current || live == Merge(current, in_, p).value
    requires u.policies == v.policies
    ensures |live| == |current|
    ensures InputOf(rules, SavedOriginals(rules, seen, cache, current, cards, chosen, in_, p), u, P.Pick(live, cards), P.Pick(live, chosen))
            == InputOf(rules, cache, v, P.Pick(current, cards), P.Pick(current, chosen))
  {
    P.PublicationKeepsCards(rules, seen, cache, current, P.Pick(current, cards), cards, in_, p);
    P.PublicationKeepsCards(rules, seen, cache, current, P.Pick(current, cards), chosen, in_, p);
    MergeKeepsSources(current, in_, p);
    assert forall j :: 0 <= j < |current| ==> live[j].projectId == current[j].projectId;
    SameRevisions(v, u, P.Pick(live, chosen), P.Pick(current, chosen));
  }

  /** Wherever a maintenance publication is cut off, the next run finds its proposal again: once the
      originals are saved the run has the same input, and the proposal is to be published if the old
      generation is still active, and recognised as complete if the new one is. */
  lemma {:induction false} PublicationIsRecognised(env: Env, v: World, rules: P.Rules, seen: iset<Entry>, cache: P.Cache,
                                                   cards: seq<nat>, chosen: seq<nat>, in_: Input, p: Proposal, version: string,
                                                   m: Metadata, guards: seq<Guard>, now: string, done: nat)
    requires EnvOk(env) && Inv(env, false, v) && v.disk.active != "" && rules.entryHash == env.entryHash
    requires Prepared(rules, seen, cache, ActiveEntries(env, v.disk), cards, chosen, in_, p)
    ensures var current := ActiveEntries(env, v.disk);
            var next := NextGeneration(Merge(current, in_, p).value, v.disk.active, version, now);
            var u := Step(env, v, Event(PublishGuarded(next, v.disk.active, m, guards), now, done));
            var live := ActiveEntries(env, u.disk);
            var saved := SavedOriginals(rules, seen, cache, current, cards, chosen, in_, p);
            var stored := StoredProposal(InputOf(rules, cache, v.disk, P.Pick(current, cards), P.Pick(current, chosen)),
                                         v.disk.active, Predict(env.entryHash, current, in_, p));
            && |live| == |current|
            && FindReceipt(env, u.disk, InputOf(rules, saved, u.disk, P.Pick(live, cards), P.Pick(live, chosen)), stored)
               == (if u.disk.active == v.disk.active then ToPublish else Complete)
  {
    var current := ActiveEntries(env, v.disk);
    var next := NextGeneration(Merge(current, in_, p).value, v.disk.active, version, now);
    var u := Step(env, v, Event(PublishGuarded(next, v.disk.active, m, guards), now, done));
    OldOrNew(env, v, in_, p, version, m, guards, now, done);
    SameInput(rules, seen, cache, current, cards, chosen, in_, p, v.disk, u.disk, ActiveEntries(env, u.disk));
  }

  lemma {:induction false} GuardedMoves(env: Env, v: World, s: Snapshot, expected: Hash, m: Metadata, guards: seq<Guard>,
                                        now: string, done: nat)
    requires EnvOk(env)
    ensures var u := Step(env, v, Event(PublishGuarded(s, expected, m, guards), now, done));
            (u.disk.active == v.disk.active || u.disk.active == env.hash(s)) && u.disk.policies == v.disk.policies
  {
    var p := PlanGuarded(env, v.disk, s, expected, m, guards, now);
    var n := if done <= |p.writes| then done else |p.writes|;
    assert Taken(p, done) == p.writes[..n];
    if p.writes != [] {
      PublishWrites(env, v.disk, s, expected, m.(kind := Maintenance), "", now);
      PublicationEffect(v, p.writes[..n], env.hash(s));
    }
  }
}
