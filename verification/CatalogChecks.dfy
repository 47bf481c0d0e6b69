/** What a restore checks, said in terms of the generations that have been active, the stored ones and
    the project's policy. */
module CatalogChecks {
  import opened Options
  import opened CatalogTypes
  import opened CatalogJournal
  import opened CatalogInvariant
  import opened CatalogSteps
  import opened CatalogTheorems
  import opened CatalogHolds
  import opened CatalogRetries

  // ---------------------------------------------------------------- the conditions

  ghost predicate WasActive(v: World, h: Hash) {
    exists i :: 0 <= i < |v.moves| && v.moves[i].target == h
  }

  /** `text` is what the client declared about the project. */
  predicate Declares(e: Entry, text: string) {
    text == if e.declaredSummary != "" then e.declaredSummary else if e.source == ClientDeclared then e.desc.summary else ""
  }

  /** Two entries of one project that differ in the description at most, and in whether the text comes
      from the client or from a model. */
  ghost predicate SameProject(a: Entry, b: Entry) {
    && b == a.(desc := b.desc, source := b.source, declaredSummary := b.declaredSummary) && a.projectId != ""
    && (exists text :: Declares(a, text) && Declares(b, text))
    && (a.source != b.source ==> {a.source, b.source} == {ClientDeclared, ModelDerived})
  }

  /** The stored policy of a project; without one, nothing is held or restricted. */
  function PolicyOf(d: Disk, id: ProjectId): Policy {
    if id in d.policies then d.policies[id] else Policy(id, 0, false, false, "", "", "")
  }

  /** The historical generation was once active, so it is stored, and so is the active one. */
  ghost predicate Reached(v: World, r: RestoreRequest) {
    && v.disk.active in v.disk.snapshots && r.historicalHash in v.disk.snapshots && WasActive(v, r.historicalHash)
  }

  ghost predicate BothExist(v: World, r: RestoreRequest) {
    && Reached(v, r) && HasProject(v.disk.snapshots[v.disk.active].entries, r.projectId)
    && HasProject(v.disk.snapshots[r.historicalHash].entries, r.projectId)
  }

  ghost function CurrentEntry(v: World, r: RestoreRequest): Entry
    requires BothExist(v, r)
  {
    FirstOf(v.disk.snapshots[v.disk.active].entries, r.projectId)
  }

  ghost function HistoricalEntry(v: World, r: RestoreRequest): Entry
    requires BothExist(v, r)
  {
    FirstOf(v.disk.snapshots[r.historicalHash].entries, r.projectId)
  }

  /** The caller has seen this generation and these entries. */
  ghost predicate HashesMatch(env: Env, v: World, r: RestoreRequest)
    requires BothExist(v, r)
  {
    && v.disk.active == r.expectedCurrentHash
    && env.entryHash(CurrentEntry(v, r)) == r.expectedCurrentEntryHash
    && env.entryHash(HistoricalEntry(v, r)) == r.historicalEntryHash
  }

  /** The caller has seen this policy, and it lets the historical description pass. */
  ghost predicate PolicyAllows(v: World, r: RestoreRequest)
    requires BothExist(v, r)
  {
    var policy := PolicyOf(v.disk, r.projectId);
    policy.revision == r.expectedPolicyRevision && (policy.historicalOnly ==> HistoricalEntry(v, r).desc.uses == [])
  }

  /** The project's entry with the historical description. */
  ghost function RestoredCard(v: World, r: RestoreRequest): Entry
    requires BothExist(v, r)
  {
    CurrentEntry(v, r).(desc := HistoricalEntry(v, r).desc)
  }

  /** The generation that a restore publishes. */
  ghost function RestoredGeneration(v: World, r: RestoreRequest, now: string): Snapshot
    requires BothExist(v, r)
  {
    var entries := v.disk.snapshots[v.disk.active].entries;
    Snapshot("restore-" + Prefix16(r.operationId), v.disk.active, now, entries[EntryIndex(entries, r.projectId) := RestoredCard(v, r)])
  }

  /** What a restore works with. */
  ghost function WorkOf(env: Env, v: World, r: RestoreRequest, now: string): RestoreWork
    requires BothExist(v, r)
  {
    var next := RestoredGeneration(v, r, now);
    RestoreWork(EntryIndex(v.disk.snapshots[v.disk.active].entries, r.projectId), CurrentEntry(v, r), RestoredCard(v, r), next,
                env.hash(next), PolicyOf(v.disk, r.projectId))
  }

  /** All conditions of a restore. That the new generation has at most 32 entries with distinct keys
      follows from the active one. */
  ghost predicate Restorable(env: Env, v: World, r: RestoreRequest, now: string) {
    && BothExist(v, r) && HashesMatch(env, v, r) && SameProject(CurrentEntry(v, r), HistoricalEntry(v, r))
    && PolicyAllows(v, r) && env.wellFormed(RestoredGeneration(v, r, now))
  }

  // ---------------------------------------------------------------- the checks decide them

  /** What the checks of a restore come to, on a catalog in which something has been published. */
  ghost predicate ChecksDecide(env: Env, v: World, r: RestoreRequest, now: string, c: RestoreCheck) {
    if !Reached(v, r) then c == RestoreStops(Answered(AnswerConflict, ""))
    else if !BothExist(v, r) then c == RestoreStops(Answered(AnswerNotFound, ""))
    else if !HashesMatch(env, v, r) then c == RestoreStops(Answered(AnswerConflict, ""))
    else if !SameProject(CurrentEntry(v, r), HistoricalEntry(v, r)) then c == RestoreStops(Answered(AnswerSourceChanged, ""))
    else if !PolicyAllows(v, r) then c == RestoreStops(Answered(AnswerConflict, ""))
    else if !env.wellFormed(RestoredGeneration(v, r, now)) then c == RestoreStops(Failed(InvalidInput))
    else c == RestoreGo(WorkOf(env, v, r, now))
  }

  lemma {:induction false} SameProjectMeans(a: Entry, b: Entry)
    ensures SameProject(a, b) <==> SameStableProjectIdentity(a, b) && SameReviewSourceIdentity(a, b)
  {
    assert Declares(a, EffectiveDeclaredSource(a)) && Declares(b, EffectiveDeclaredSource(b));
    if SameProject(a, b) {
      var text :| Declares(a, text) && Declares(b, text);
      assert SameReviewProvenance(a.source, b.source) by {
        if a.source != b.source {
          assert a.source in {ClientDeclared, ModelDerived} && b.source in {ClientDeclared, ModelDerived};
        }
      }
    }
  }

  /** A card replaced by one with the same key leaves the generation valid, but for its format. */
  lemma {:induction false} StaysValid(env: Env, was: Snapshot, next: Snapshot, i: nat, e: Entry)
    requires Valid(env, was) && i < |was.entries| && next.entries == was.entries[i := e]
    requires e.namespace == was.entries[i].namespace && e.tag == was.entries[i].tag
    ensures Valid(env, next) <==> env.wellFormed(next)
  {
  }

  lemma {:induction false} EntriesDecide(env: Env, v: World, r: RestoreRequest, now: string)
    requires EnvOk(env) && Sound(env, v) && Reached(v, r)
    ensures ChecksDecide(env, v, r, now,
              CheckRestoreEntries(env, v.disk, r, now, v.disk.snapshots[v.disk.active], v.disk.active, v.disk.snapshots[r.historicalHash]))
  {
    var cur, past := v.disk.snapshots[v.disk.active], v.disk.snapshots[r.historicalHash];
    if BothExist(v, r) {
      var i := EntryIndex(cur.entries, r.projectId);
      SameProjectMeans(CurrentEntry(v, r), HistoricalEntry(v, r));
      StaysValid(env, cur, RestoredGeneration(v, r, now), i, RestoredCard(v, r));
    }
  }

  lemma {:induction false} ChecksDecided(env: Env, v: World, r: RestoreRequest, now: string)
    requires EnvOk(env) && Sound(env, v) && v.moves != []
    ensures ChecksDecide(env, v, r, now, CheckRestore(env, v.disk, r, now))
  {
    assert MoveOk(v, |v.moves| - 1);
    ActiveIsStored(env, v);
    MembershipFrom(env, v, |v.moves|, r.historicalHash, []);
    if WasActive(v, r.historicalHash) {
      var i :| 0 <= i < |v.moves| && v.moves[i].target == r.historicalHash;
      assert MoveOk(v, i);
      EntriesDecide(env, v, r, now);
    }
  }

  // ---------------------------------------------------------------- what a restore does and answers

  /** The restore has announced itself in the journal. */
  predicate IsAnnounced(ws: seq<Write>, id: OpId) {
    exists i :: 0 <= i < |ws| && Announces(ws[i], id)
  }

  /** What a new restore answers, and whether it writes anything of its own behind the recovery. */
  ghost predicate Decided(env: Env, v: World, r: RestoreRequest, now: string, p: Plan, rec: seq<Write>) {
    && (IsAnnounced(p.writes, r.operationId) <==> Restorable(env, v, r, now))
    && (!Restorable(env, v, r, now) ==> p.writes == rec)
    && (p.out == Answered(AnswerSourceChanged, "") <==>
          BothExist(v, r) && HashesMatch(env, v, r) && !SameProject(CurrentEntry(v, r), HistoricalEntry(v, r)))
    && (p.out == Answered(AnswerNotFound, "") <==> Reached(v, r) && !BothExist(v, r))
    && (p.out == Answered(AnswerConflict, "") <==>
          !Reached(v, r)
          || (BothExist(v, r)
              && (!HashesMatch(env, v, r) || (SameProject(CurrentEntry(v, r), HistoricalEntry(v, r)) && !PolicyAllows(v, r)))))
  }

  lemma {:induction false} BodyAnswers(env: Env, d: Disk, r: RestoreRequest, k: RestoreWork, now: string)
    requires EnvOk(env) && r.operationId !in d.intents
    ensures var body := PlanRestoreBody(env, d, r, k, now);
            && (body.out.Failed? || (body.out.Answered? && body.out.answer == AnswerRestored))
            && body.writes != [] && body.writes[0] == PutIntent(RestoreIntent(env, d.active, r, k, now))
  {
    RestoreBodyShape(env, d, r, k, now);
    HoldShape(env, World(d, [], {}), r, k, now);
  }

  lemma {:induction false} ReceiptsAnnounceNothing(ws: seq<Write>, id: OpId)
    requires forall i :: 0 <= i < |ws| ==> ws[i].PutReceipt?
    ensures !IsAnnounced(ws, id)
  {
  }

  /** Recovery changes nothing that a restore checks. */
  lemma {:induction false} SameConditions(env: Env, v: World, u: World, r: RestoreRequest, now: string)
    requires u == v.(disk := v.disk.(receipts := u.disk.receipts))
    ensures Reached(u, r) == Reached(v, r) && BothExist(u, r) == BothExist(v, r)
    ensures BothExist(v, r) ==>
              && CurrentEntry(u, r) == CurrentEntry(v, r) && HistoricalEntry(u, r) == HistoricalEntry(v, r)
              && HashesMatch(env, u, r) == HashesMatch(env, v, r) && PolicyAllows(u, r) == PolicyAllows(v, r)
              && RestoredGeneration(u, r, now) == RestoredGeneration(v, r, now) && RestoredCard(u, r) == RestoredCard(v, r)
    ensures PolicyOf(u.disk, r.projectId) == PolicyOf(v.disk, r.projectId)
  {
    assert WasActive(u, r.historicalHash) == WasActive(v, r.historicalHash);
  }

  /** The plan that follows a check. */
  ghost predicate Follows(p: Plan, c: RestoreCheck, rec: seq<Write>, id: OpId) {
    if c.RestoreStops? then p == Plan(rec, c.out) && !IsAnnounced(rec, id)
    else IsAnnounced(p.writes, id) && (p.out.Failed? || (p.out.Answered? && p.out.answer == AnswerRestored))
  }

  lemma {:induction false} DecidedBy(env: Env, v: World, r: RestoreRequest, now: string, c: RestoreCheck, p: Plan, rec: seq<Write>)
    requires ChecksDecide(env, v, r, now, c) && Follows(p, c, rec, r.operationId)
    ensures Decided(env, v, r, now, p, rec)
  {
  }

  lemma {:induction false} RestoreFollows(env: Env, v: World, r: RestoreRequest, now: string, c: RestoreCheck)
    requires EnvOk(env) && Inv(env, false, v) && r.operationId != "" && ReasonOk(r.reason) && r.operationId !in v.disk.intents
    requires c == CheckRestore(env, Recovered(env, v.disk), r, now)
    ensures Follows(PlanRestore(env, v.disk, r, now), c, PlanReconcile(env, v.disk, "").writes, r.operationId)
  {
    var rec := PlanReconcile(env, v.disk, "").writes;
    ReconcileOk(env, false, v, "");
    var u := ApplyAll(v, rec);
    ReconcileWritesReceipts(env, v.disk, "");
    KnownIsFound(env, u, r.operationId);
    RestoreShape(env, v.disk, r, now);
    ReceiptsAnnounceNothing(rec, r.operationId);
    if c.RestoreGo? {
      var body := PlanRestoreBody(env, u.disk, r, c.work, now);
      BodyAnswers(env, u.disk, r, c.work, now);
      assert Announces((rec + body.writes)[|rec|], r.operationId);
    }
  }

  lemma {:induction false} SameDecision(env: Env, v: World, u: World, r: RestoreRequest, now: string, c: RestoreCheck)
    requires u == v.(disk := v.disk.(receipts := u.disk.receipts)) && ChecksDecide(env, u, r, now, c)
    ensures ChecksDecide(env, v, r, now, c)
  {
    SameConditions(env, v, u, r, now);
  }

  /** The checks of a restore, after the recovery that comes first. */
  lemma {:induction false} RecoveredChecks(env: Env, v: World, r: RestoreRequest, now: string)
    requires EnvOk(env) && Inv(env, false, v) && v.moves != []
    ensures ChecksDecide(env, v, r, now, CheckRestore(env, Recovered(env, v.disk), r, now))
  {
    var rec, u := RecoveryForRestore(env, v);
    ReconcileWritesReceipts(env, v.disk, "");
    ReceiptsOnly(v, rec);
    ChecksDecided(env, u, r, now);
    SameDecision(env, v, u, r, now, CheckRestore(env, u.disk, r, now));
  }

  /** Exactly when a restore under a new id goes ahead, and exactly when it gives each other answer. A
      restore that does not go ahead writes nothing but what recovery writes. */
  lemma {:induction false} RestoreGoesAheadIff(env: Env, v: World, r: RestoreRequest, now: string)
    requires EnvOk(env) && Inv(env, false, v) && v.moves != []
    requires r.operationId != "" && ReasonOk(r.reason) && r.operationId !in v.disk.intents
    ensures Decided(env, v, r, now, PlanRestore(env, v.disk, r, now), PlanReconcile(env, v.disk, "").writes)
  {
    var c := CheckRestore(env, Recovered(env, v.disk), r, now);
    RecoveredChecks(env, v, r, now);
    RestoreFollows(env, v, r, now, c);
    DecidedBy(env, v, r, now, c, PlanRestore(env, v.disk, r, now), PlanReconcile(env, v.disk, "").writes);
  }

  // ---------------------------------------------------------------- when it succeeds, and what it leaves

  /** A new restore succeeds exactly when it goes ahead, its reason fits the journal, its hold can be
      recorded, every entry of the new generation may be published, and the description changes. */
  lemma {:induction false} RestoreSucceedsIff(env: Env, v: World, r: RestoreRequest, now: string)
    requires EnvOk(env) && Inv(env, false, v) && v.moves != [] && UniqueProjects(ActiveEntries(env, v.disk))
    requires r.operationId != "" && ReasonOk(r.reason) && r.operationId !in v.disk.intents
    ensures Restores(env, v.disk, r, now) <==>
              && Restorable(env, v, r, now) && ReasonFits(r)
              && HoldTakes(env, Recovered(env, v.disk), r, WorkOf(env, v, r, now), now)
              && AllEligible(RestoredGeneration(v, r, now).entries)
              && HistoricalEntry(v, r).desc != CurrentEntry(v, r).desc
  {
    RecoveredChecks(env, v, r, now);
    RestoreFollows(env, v, r, now, CheckRestore(env, Recovered(env, v.disk), r, now));
    if Restorable(env, v, r, now) {
      GoingAheadEndsIff(env, v, r, now);
    }
  }

  lemma {:induction false} GoingAheadEndsIff(env: Env, v: World, r: RestoreRequest, now: string)
    requires EnvOk(env) && Inv(env, false, v) && UniqueProjects(ActiveEntries(env, v.disk))
    requires r.operationId != "" && ReasonOk(r.reason) && r.operationId !in v.disk.intents
    requires Restorable(env, v, r, now) && CheckRestore(env, Recovered(env, v.disk), r, now) == RestoreGo(WorkOf(env, v, r, now))
    ensures Restores(env, v.disk, r, now) <==>
              && ReasonFits(r) && HoldTakes(env, Recovered(env, v.disk), r, WorkOf(env, v, r, now), now)
              && AllEligible(RestoredGeneration(v, r, now).entries)
              && HistoricalEntry(v, r).desc != CurrentEntry(v, r).desc
  {
    var rec, u := RecoveryForRestore(env, v);
    ReconcileOk(env, false, v, "");
    KnownIsFound(env, u, r.operationId);
    SameEntries(env, v, u);
    RestoreEndsIff(env, v, r, now);
    ChangeIsAnnouncedIff(env, u, r, now);
  }

  /** The policy that a successful restore leaves: held for the reason given, one revision on, and taken
      for the card as it is now. */
  ghost function RestoredPolicy(env: Env, v: World, r: RestoreRequest, now: string): Policy
    requires BothExist(v, r)
  {
    PolicyOf(v.disk, r.projectId).(hold := true, reason := r.reason, revision := PolicyOf(v.disk, r.projectId).revision + 1,
                                   currentEntryHash := env.entryHash(RestoredCard(v, r)), updatedAt := now)
  }

  lemma {:induction false} BodyPolicies(env: Env, v: World, r: RestoreRequest, k: RestoreWork, now: string)
    requires EnvOk(env) && Pending(v.disk) == {} && k.policy.projectId == r.projectId
    requires r.operationId !in v.disk.intents && r.operationId !in v.disk.receipts
    requires PlanRestoreBody(env, v.disk, r, k, now).out.Answered?
    ensures ApplyAll(v, PlanRestoreBody(env, v.disk, r, k, now).writes).disk.policies
            == v.disk.policies[r.projectId := HeldPolicy(env, r, k, now).(currentEntryHash := env.entryHash(k.restored))]
  {
    RestoreBodyShape(env, v.disk, r, k, now);
    var held := PlanHold(env, v.disk, r, k, now);
    var u := ApplyAll(v, held.writes);
    ApplyAllDisk(v, held.writes);
    var published := PlanPublish(env, u.disk, k.next, v.disk.active, RestoreMetadata(env, r), r.operationId, now);
    PublishIsNoAnswer(env, u.disk, k.next, v.disk.active, RestoreMetadata(env, r), r.operationId, now);
    HoldEffect(env, v, r, k, now);
    PublishWrites(env, u.disk, k.next, v.disk.active, RestoreMetadata(env, r), r.operationId, now);
    PublicationEffect(u, published.writes, env.hash(k.next));
    var settled := PutPolicy("", HeldPolicy(env, r, k, now).(currentEntryHash := env.entryHash(k.restored)));
    ApplyAllConcat(v, held.writes, published.writes + [settled]);
    ApplyAllConcat(u, published.writes, [settled]);
    ApplyOne(ApplyAll(u, published.writes), settled);
  }

  /** `u` is `v` with the restored generation installed and the policy saved. */
  ghost predicate LeftBy(env: Env, v: World, u: World, id: OpId, k: RestoreWork, p: Policy) {
    && u.disk.active == k.target && u.disk.active in u.disk.snapshots && u.disk.snapshots[u.disk.active] == k.next
    && u.moves == v.moves + [Move(id, v.disk.active, u.disk.active)]
    && u.disk.policies == v.disk.policies[p.projectId := p]
  }

  lemma {:induction false} BodyLeaves(env: Env, v: World, r: RestoreRequest, k: RestoreWork, now: string)
    requires EnvOk(env) && Inv(env, false, v) && Pending(v.disk) <= {""} && r.operationId != ""
    requires !LoadOperation(v.disk, r.operationId).LookupIs? && CheckRestore(env, v.disk, r, now) == RestoreGo(k)
    requires PlanRestoreBody(env, v.disk, r, k, now).out.Answered?
    ensures LeftBy(env, v, ApplyAll(v, PlanRestoreBody(env, v.disk, r, k, now).writes), r.operationId, k,
                   HeldPolicy(env, r, k, now).(currentEntryHash := env.entryHash(k.restored)))
  {
    RestoreReady(env, v, r, now);
    ReadyWork(env, v, r, now);
    RestoreBodyEffect(env, v, r, k, now);
    BodyPolicies(env, v, r, k, now);
  }

  lemma {:induction false} SuccessIsRestorable(env: Env, v: World, r: RestoreRequest, now: string)
    requires EnvOk(env) && Inv(env, false, v) && v.moves != [] && Restores(env, v.disk, r, now)
    ensures Restorable(env, v, r, now) && CheckRestore(env, Recovered(env, v.disk), r, now) == RestoreGo(WorkOf(env, v, r, now))
  {
    RecoveredChecks(env, v, r, now);
    RestoresGo(env, v, r, now);
  }

  lemma {:induction false} LeftAfterRecovery(env: Env, v: World, v1: World, u: World, id: OpId, k: RestoreWork, p: Policy)
    requires v1 == v.(disk := v.disk.(receipts := v1.disk.receipts)) && LeftBy(env, v1, u, id, k, p)
    ensures LeftBy(env, v, u, id, k, p)
  {
  }

  /** A successful restore under a new id has installed the restored generation and saved that policy,
      and no other. */
  lemma {:induction false} RestoreLeaves(env: Env, v: World, r: RestoreRequest, now: string)
    requires EnvOk(env) && Inv(env, false, v) && v.moves != [] && Restores(env, v.disk, r, now)
    ensures Restorable(env, v, r, now)
    ensures LeftBy(env, v, ApplyAll(v, PlanRestore(env, v.disk, r, now).writes), r.operationId, WorkOf(env, v, r, now),
                   RestoredPolicy(env, v, r, now))
  {
    SuccessIsRestorable(env, v, r, now);
    RestoredPolicyIs(env, v, r, now);
    RestoredWorld(env, v, r, WorkOf(env, v, r, now), now, RestoredPolicy(env, v, r, now));
  }

  lemma {:induction false} RestoredPolicyIs(env: Env, v: World, r: RestoreRequest, now: string)
    requires BothExist(v, r)
    ensures RestoredPolicy(env, v, r, now)
            == HeldPolicy(env, r, WorkOf(env, v, r, now), now).(currentEntryHash := env.entryHash(RestoredCard(v, r)))
  {
  }

  lemma {:induction false} RestoredWorld(env: Env, v: World, r: RestoreRequest, k: RestoreWork, now: string, p: Policy)
    requires EnvOk(env) && Inv(env, false, v) && Restores(env, v.disk, r, now)
    requires CheckRestore(env, Recovered(env, v.disk), r, now) == RestoreGo(k)
    requires p == HeldPolicy(env, r, k, now).(currentEntryHash := env.entryHash(k.restored))
    ensures LeftBy(env, v, ApplyAll(v, PlanRestore(env, v.disk, r, now).writes), r.operationId, k, p)
  {
    var rec, v1 := RecoveryForRestore(env, v);
    RestoresGo(env, v, r, now);
    ReconcileWritesReceipts(env, v.disk, "");
    ReceiptsOnly(v, rec);
    BodyLeaves(env, v1, r, k, now);
    ApplyAllConcat(v, rec, PlanRestoreBody(env, v1.disk, r, k, now).writes);
    LeftAfterRecovery(env, v, v1, ApplyAll(v, PlanRestore(env, v.disk, r, now).writes), r.operationId, k, p);
  }

  /** On an empty catalog there is nothing to restore. */
  lemma {:induction false} NothingToRestore(env: Env, v: World, r: RestoreRequest, now: string)
    requires EnvOk(env) && Inv(env, false, v) && v.moves == []
    requires r.operationId != "" && ReasonOk(r.reason) && r.operationId !in v.disk.intents
    ensures PlanRestore(env, v.disk, r, now) == Plan(PlanReconcile(env, v.disk, "").writes, Failed(NotFound))
  {
    var rec, u := RecoveryForRestore(env, v);
    ReconcileOk(env, false, v, "");
    KnownIsFound(env, u, r.operationId);
    RestoreShape(env, v.disk, r, now);
  }
}
