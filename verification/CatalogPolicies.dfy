/** What a change of a project's policy or hold saves, and when. */
module CatalogPolicies {
  import opened Options
  import opened CatalogTypes
  import opened CatalogJournal
  import opened CatalogInvariant
  import opened CatalogSteps
  import opened CatalogTheorems
  import opened CatalogHolds
  import opened CatalogRetries
  import opened CatalogChecks

  // ---------------------------------------------------------------- the conditions

  /** The project has an entry in the active generation. */
  ghost predicate IsActive(v: World, id: ProjectId) {
    v.disk.active in v.disk.snapshots && HasProject(v.disk.snapshots[v.disk.active].entries, id)
  }

  ghost function ActiveCard(v: World, id: ProjectId): Entry
    requires IsActive(v, id)
  {
    FirstOf(v.disk.snapshots[v.disk.active].entries, id)
  }

  /** Something that can be read, and at most 512 characters of it. */
  predicate Readable(reason: string) {
    && |reason| <= 512 && (forall i :: 0 <= i < |reason| ==> reason[i] != '\0')
    && exists i :: 0 <= i < |reason| && !Space(reason[i])
  }

  /** The project is active, the caller has seen its card and its policy, and says why. */
  ghost predicate MayChange(env: Env, v: World, id: ProjectId, reason: string, expectedEntry: Hash, expectedRevision: nat) {
    && id != "" && IsActive(v, id) && env.entryHash(ActiveCard(v, id)) == expectedEntry
    && PolicyOf(v.disk, id).revision == expectedRevision && Readable(reason)
  }

  /** The policy that a change saves: what was asked for, one revision on, taken for the card as it is. */
  ghost function SavedPolicy(env: Env, v: World, asked: Policy, now: string): Policy
    requires IsActive(v, asked.projectId)
  {
    asked.(revision := PolicyOf(v.disk, asked.projectId).revision + 1,
           currentEntryHash := env.entryHash(ActiveCard(v, asked.projectId)), updatedAt := now)
  }

  /** The operation id is new, or it was used for this very change at this very time. */
  ghost predicate IdUsable(d: Disk, intent: Record) {
    intent.operationId in d.intents ==>
      SameIntent(d.intents[intent.operationId], intent) && intent.operationId in d.receipts
      && d.receipts[intent.operationId] == AppliedReceipt(intent, d.active)
  }

  // ---------------------------------------------------------------- the change proper

  lemma {:induction false} ReadableMeans(reason: string)
    ensures Readable(reason) <==> ReasonOk(reason)
  {
  }

  /** On a catalog without pending operations. */
  ghost predicate ChangeDecided(env: Env, v: World, asked: Policy, e: Hash, n: nat, now: string, p: Plan) {
    && (p.out.PolicySaved? <==>
          MayChange(env, v, asked.projectId, asked.reason, e, n)
          && IdUsable(v.disk, PolicyIntent(env, v.disk.active, SavedPolicy(env, v, asked, now))))
    && (p.out.PolicySaved? ==> p.out.policy == SavedPolicy(env, v, asked, now))
    && (p.out.PolicySaved? || p.out.Failed?)
    && (!MayChange(env, v, asked.projectId, asked.reason, e, n) ==> p.writes == [])
  }

  lemma {:induction false} ActiveBody(env: Env, v: World, asked: Policy, e: Hash, n: nat, now: string)
    requires EnvOk(env) && Sound(env, v) && IsActive(v, asked.projectId) && asked.projectId != ""
    ensures LoadActive(env, v.disk) == ActiveIs(v.disk.snapshots[v.disk.active], v.disk.active)
    ensures LoadPolicy(v.disk, asked.projectId) == Some(PolicyOf(v.disk, asked.projectId))
    ensures PolicyChangeId(env, v.disk, asked, now).Some? && ChangedPolicy(env, v.disk, asked, now) == SavedPolicy(env, v, asked, now)
  {
    assert v.disk.active != "";
    ActiveIsStored(env, v);
  }

  /** Announcing and recording work exactly when the id can be used. */
  lemma {:induction false} IdDecides(env: Env, v: World, intent: Record)
    requires Sound(env, v) && Pending(v.disk) == {} && IntentOk(env, intent, intent.operationId)
    ensures !PlanIntent(v.disk, intent).out.Failed? && !PlanReceipt(v.disk, AppliedReceipt(intent, v.disk.active)).out.Failed?
            <==> IdUsable(v.disk, intent)
  {
    NoReceiptWithoutIntent(env, v, intent.operationId);
    assert intent.operationId in v.disk.intents ==> intent.operationId !in Pending(v.disk);
  }

  lemma {:induction false} NotActiveFails(env: Env, v: World, asked: Policy, e: Hash, n: nat, now: string)
    requires Sound(env, v) && !IsActive(v, asked.projectId)
    ensures PlanPolicyBody(env, v.disk, asked, e, n, now).out.Failed? && PlanPolicyBody(env, v.disk, asked, e, n, now).writes == []
  {
    if v.disk.active != "" {
      ActiveIsStored(env, v);
    }
  }

  lemma {:induction false} ActiveDecided(env: Env, v: World, asked: Policy, e: Hash, n: nat, now: string, p: Policy, intent: Record)
    requires EnvOk(env) && Sound(env, v) && IsActive(v, asked.projectId) && asked.projectId != ""
    requires p == SavedPolicy(env, v, asked, now) && intent == PolicyIntent(env, v.disk.active, p)
    ensures var q := PlanPolicyBody(env, v.disk, asked, e, n, now);
            if MayChange(env, v, asked.projectId, asked.reason, e, n) && !PlanIntent(v.disk, intent).out.Failed?
               && !PlanReceipt(v.disk, AppliedReceipt(intent, v.disk.active)).out.Failed?
            then q.out == PolicySaved(p) else q.out.Failed? && (!MayChange(env, v, asked.projectId, asked.reason, e, n) ==> q.writes == [])
  {
    ActiveBody(env, v, asked, e, n, now);
    ReadableMeans(asked.reason);
  }

  lemma {:induction false} BodyDecided(env: Env, v: World, asked: Policy, e: Hash, n: nat, now: string)
    requires EnvOk(env) && Sound(env, v) && Pending(v.disk) == {} && asked.projectId != ""
    ensures ChangeDecided(env, v, asked, e, n, now, PlanPolicyBody(env, v.disk, asked, e, n, now))
  {
    if IsActive(v, asked.projectId) {
      ActiveBody(env, v, asked, e, n, now);
      PolicyIntentOk(env, v.disk, asked, now);
      var p := SavedPolicy(env, v, asked, now);
      var intent := PolicyIntent(env, v.disk.active, p);
      ActiveDecided(env, v, asked, e, n, now, p, intent);
      IdDecides(env, v, intent);
    } else {
      NotActiveFails(env, v, asked, e, n, now);
    }
  }

  // ---------------------------------------------------------------- what it leaves

  /** `u` is `v` with the policy saved, and recorded as saved. */
  ghost predicate PolicySet(v: World, u: World, p: Policy, id: OpId) {
    && u.disk.policies == v.disk.policies[p.projectId := p]
    && u.disk.active == v.disk.active && u.disk.snapshots == v.disk.snapshots && u.moves == v.moves
    && id in u.disk.receipts && u.disk.receipts[id].status == Applied && u.disk.receipts[id].result == v.disk.active
  }

  lemma {:induction false} SavedIsRecorded(v: World, intent: Record, p: Policy)
    requires !PlanIntent(v.disk, intent).out.Failed? && !PlanReceipt(v.disk, AppliedReceipt(intent, v.disk.active)).out.Failed?
    ensures PolicySet(v, ApplyAll(v, PolicyWrites(v.disk, intent, p)), p, intent.operationId)
  {
    var first := PlanIntent(v.disk, intent).writes + [PutPolicy(intent.operationId, p)];
    var receipt := AppliedReceipt(intent, v.disk.active);
    var recorded := PlanReceipt(v.disk, receipt).writes;
    PolicyWritesEffect(v, intent, p);
    ApplyAllConcat(v, PlanIntent(v.disk, intent).writes, [PutPolicy(intent.operationId, p)]);
    AnnouncedEffect(v, intent);
    var v1 := ApplyAll(v, first);
    ApplyOne(Announced(v, intent), PutPolicy(intent.operationId, p));
    assert PlanReceipt(v.disk, receipt) == PlanReceipt(v1.disk, receipt);
    RecordedEffect(v1, receipt);
    ApplyAllConcat(v, first, recorded);
    assert PolicyWrites(v.disk, intent, p) == first + recorded;
  }

  lemma {:induction false} BodySets(env: Env, v: World, asked: Policy, e: Hash, n: nat, now: string)
    requires EnvOk(env) && Sound(env, v) && PlanPolicyBody(env, v.disk, asked, e, n, now).out.PolicySaved?
    requires IsActive(v, asked.projectId) && asked.projectId != ""
    ensures var p := SavedPolicy(env, v, asked, now);
            PolicySet(v, ApplyAll(v, PlanPolicyBody(env, v.disk, asked, e, n, now).writes), p, PolicyIntent(env, v.disk.active, p).operationId)
  {
    ActiveBody(env, v, asked, e, n, now);
    PolicyBodyShape(env, v.disk, asked, e, n, now);
    var p := SavedPolicy(env, v, asked, now);
    SavedIsRecorded(v, PolicyIntent(env, v.disk.active, p), p);
  }

  // ---------------------------------------------------------------- with the recovery before it

  /** What was asked, decided and saved, in terms of the catalog `v` before the recovery. `d` is the
      directory after it; a change that is refused leaves no more than that. */
  ghost predicate ChangeEnds(env: Env, v: World, u: World, d: Disk, asked: Policy, e: Hash, n: nat, now: string, out: Outcome) {
    && (out.PolicySaved? <==>
          MayChange(env, v, asked.projectId, asked.reason, e, n)
          && IdUsable(d, PolicyIntent(env, v.disk.active, SavedPolicy(env, v, asked, now))))
    && (out.PolicySaved? ==>
          var p := SavedPolicy(env, v, asked, now);
          out.policy == p && PolicySet(v, u, p, PolicyIntent(env, v.disk.active, p).operationId))
    && (out.PolicySaved? || out.Failed?)
    && (!MayChange(env, v, asked.projectId, asked.reason, e, n) ==> u.disk == d || u == v)
  }

  lemma {:induction false} ChangeFollows(env: Env, v: World, asked: Policy, e: Hash, n: nat, now: string, p: Plan)
    requires EnvOk(env) && Inv(env, false, v) && asked.projectId != ""
    requires p == Then(PlanReconcile(env, v.disk, ""), PlanPolicyBody(env, Recovered(env, v.disk), asked, e, n, now))
    ensures ChangeEnds(env, v, ApplyAll(v, p.writes), Recovered(env, v.disk), asked, e, n, now, p.out)
  {
    var rec, v1 := RecoveryForRestore(env, v);
    ReconcileOk(env, false, v, "");
    NothingPending(env, v1);
    var body := PlanPolicyBody(env, v1.disk, asked, e, n, now);
    ApplyAllConcat(v, rec, body.writes);
    BodyDecided(env, v1, asked, e, n, now);
    ReceiptsApart(env, v, v1, asked, now);
    if body.out.PolicySaved? {
      BodySets(env, v1, asked, e, n, now);
    }
  }

  lemma {:induction false} ReceiptsApart(env: Env, v: World, u: World, asked: Policy, now: string)
    requires MoreReceipts(v, u)
    ensures IsActive(u, asked.projectId) == IsActive(v, asked.projectId)
    ensures PolicyOf(u.disk, asked.projectId) == PolicyOf(v.disk, asked.projectId)
    ensures IsActive(v, asked.projectId) ==>
              ActiveCard(u, asked.projectId) == ActiveCard(v, asked.projectId) && SavedPolicy(env, u, asked, now) == SavedPolicy(env, v, asked, now)
  {
  }

  /** A policy is set exactly when the project is active, the card and the revision are the ones that the
      caller has seen, the reason can be read, and the operation id can be used; then it is the policy
      that was asked for, and nothing else has changed but the journal. */
  lemma {:induction false} PolicyIsSaved(env: Env, v: World, asked: Policy, e: Hash, n: nat, now: string)
    requires EnvOk(env) && Inv(env, false, v)
    ensures var p := PlanOf(env, v.disk, SetPolicy(asked, e, n), now);
            ChangeEnds(env, v, ApplyAll(v, p.writes), Recovered(env, v.disk), asked, e, n, now, p.out)
  {
    if asked.projectId != "" {
      ReconcileOk(env, false, v, "");
      ChangeFollows(env, v, asked, e, n, now, PlanSetPolicy(env, v.disk, asked, e, n, now));
    }
  }

  /** The same for a hold: it is the stored policy with this hold and this reason, and every other field
      as it was. */
  lemma {:induction false} HoldIsSaved(env: Env, v: World, id: ProjectId, hold: bool, reason: string, e: Hash, n: nat, now: string)
    requires EnvOk(env) && Inv(env, false, v)
    ensures var p := PlanOf(env, v.disk, SetHold(id, hold, reason, e, n), now);
            ChangeEnds(env, v, ApplyAll(v, p.writes), Recovered(env, v.disk),
                       PolicyOf(v.disk, id).(projectId := id, hold := hold, reason := reason), e, n, now, p.out)
  {
    if id != "" {
      ReconcileOk(env, false, v, "");
      var d := Recovered(env, v.disk);
      var asked := PolicyOf(v.disk, id).(projectId := id, hold := hold, reason := reason);
      assert LoadPolicy(d, id) == Some(PolicyOf(v.disk, id)) && PolicyOf(v.disk, id).projectId == id;
      ChangeFollows(env, v, asked, e, n, now, PlanSetHold(env, v.disk, id, hold, reason, e, n, now));
    }
  }
}
