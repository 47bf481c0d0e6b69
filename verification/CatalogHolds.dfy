/** Restores, holds, and what an automated publication cannot change. */
module CatalogHolds {
  import opened Options
  import opened CatalogTypes
  import opened CatalogJournal
  import opened CatalogInvariant
  import opened CatalogSteps
  import opened CatalogTheorems

  // ---------------------------------------------------------------- shapes of write lists

  predicate KeepsPointer(w: Write) { !w.MovePointer? }

  predicate KeepsHold(w: Write, id: ProjectId) { w.PutPolicy? && w.policy.projectId == id ==> w.policy.hold }

  lemma {:induction false} ReconcileIdsWritesReceipts(env: Env, d: Disk, chain: seq<Hash>, skip: OpId, ids: seq<OpId>, unclear: bool)
    requires forall id :: id in ids ==> id in d.intents
    ensures forall i :: 0 <= i < |ReconcileIds(env, d, chain, skip, ids, unclear).writes| ==>
              ReconcileIds(env, d, chain, skip, ids, unclear).writes[i].PutReceipt?
    decreases |ids|
  {
    if ids != [] {
      ReconcileIdsWritesReceipts(env, d, chain, skip, ids[1..], unclear);
      ReconcileIdsWritesReceipts(env, d, chain, skip, ids[1..], true);
    }
  }

  /** Recovery writes receipts and nothing else, on any disk. */
  lemma {:induction false} ReconcileWritesReceipts(env: Env, d: Disk, skip: OpId)
    requires EnvOk(env)
    ensures forall i :: 0 <= i < |PlanReconcile(env, d, skip).writes| ==> PlanReconcile(env, d, skip).writes[i].PutReceipt?
  {
    var ids := env.listing(d.intents.Keys);
    assert Lists(ids, d.intents.Keys);
    if Walk(env, d, d.active, []).Some? {
      ReconcileIdsWritesReceipts(env, d, Walk(env, d, d.active, []).value, skip, ids, false);
    }
  }

  predicate PublicationWrite(w: Write, target: Hash) {
    !w.PutPolicy? && (w.MovePointer? ==> w.target == target)
  }

  lemma {:induction false} PublishBodyWrites(env: Env, d: Disk, s: Snapshot, expected: Hash, m: Metadata, now: string)
    ensures var ws := PlanPublishBody(env, d, s, expected, m, now).writes;
            forall i :: 0 <= i < |ws| ==> PublicationWrite(ws[i], env.hash(s))
  {
    PublishBodyShape(env, d, s, expected, m, now);
  }

  /** A publication never touches a policy, and moves the pointer only to its own generation. */
  lemma {:induction false} PublishWrites(env: Env, d: Disk, s: Snapshot, expected: Hash, m: Metadata, skip: OpId, now: string)
    requires EnvOk(env)
    ensures var ws := PlanPublish(env, d, s, expected, m, skip, now).writes;
            forall i :: 0 <= i < |ws| ==> PublicationWrite(ws[i], env.hash(s))
  {
    ReconcileWritesReceipts(env, d, skip);
    var rec := PlanReconcile(env, d, skip);
    PublishBodyWrites(env, ApplyDiskAll(d, rec.writes), s, expected, m, now);
  }

  lemma {:induction false} PointerKept(v: World, ws: seq<Write>)
    requires forall i :: 0 <= i < |ws| ==> KeepsPointer(ws[i])
    ensures ApplyAll(v, ws).moves == v.moves && ApplyAll(v, ws).disk.active == v.disk.active
    decreases |ws|
  {
    if ws != [] {
      PointerKept(Apply(v, ws[0]), ws[1..]);
    }
  }

  lemma {:induction false} PublicationEffect(v: World, ws: seq<Write>, target: Hash)
    requires forall i :: 0 <= i < |ws| ==> PublicationWrite(ws[i], target)
    ensures ApplyAll(v, ws).disk.policies == v.disk.policies
    ensures ApplyAll(v, ws).disk.active == v.disk.active || ApplyAll(v, ws).disk.active == target
    decreases |ws|
  {
    if ws != [] {
      PublicationEffect(Apply(v, ws[0]), ws[1..], target);
    }
  }

  ghost predicate Held(d: Disk, id: ProjectId) {
    id in d.policies && d.policies[id].hold
  }

  lemma {:induction false} HoldKept(v: World, ws: seq<Write>, id: ProjectId)
    requires Held(v.disk, id) && forall i :: 0 <= i < |ws| ==> KeepsHold(ws[i], id)
    ensures Held(ApplyAll(v, ws).disk, id)
    decreases |ws|
  {
    if ws != [] {
      HoldKept(Apply(v, ws[0]), ws[1..], id);
    }
  }

  // ---------------------------------------------------------------- the hold comes first

  lemma {:induction false} HoldWritesKeepPointer(env: Env, v: World, r: RestoreRequest, k: RestoreWork, now: string)
    requires r.operationId !in v.disk.intents
    ensures var ws := PlanHold(env, v.disk, r, k, now).writes;
            forall i :: 0 <= i < |ws| ==> KeepsPointer(ws[i])
  {
    HoldShape(env, v, r, k, now);
  }

  /** If `a` never moves the pointer and leaves the project held, and `b` keeps the hold, then
      wherever `a + b` is cut off a moved pointer implies the hold. */
  lemma {:induction false} MovedImpliesHeld(v: World, a: seq<Write>, b: seq<Write>, k: nat, id: ProjectId)
    requires forall i :: 0 <= i < |a| ==> KeepsPointer(a[i])
    requires Held(ApplyAll(v, a).disk, id)
    requires forall i :: 0 <= i < |b| ==> KeepsHold(b[i], id)
    requires k <= |a + b|
    ensures var u := ApplyAll(v, (a + b)[..k]);
            u.moves != v.moves ==> Held(u.disk, id)
  {
    if k <= |a| {
      assert (a + b)[..k] == a[..k];
      PointerKept(v, a[..k]);
    } else {
      assert (a + b)[..k] == a + b[..k - |a|];
      ApplyAllConcat(v, a, b[..k - |a|]);
      HoldKept(ApplyAll(v, a), b[..k - |a|], id);
    }
  }

  /** Writes that never move the pointer, then writes behind a hold that is on disk. */
  ghost predicate HoldComesFirst(v: World, first: seq<Write>, rest: seq<Write>, id: ProjectId) {
    && (forall i :: 0 <= i < |first| ==> KeepsPointer(first[i]))
    && (forall i :: 0 <= i < |rest| ==> KeepsHold(rest[i], id))
    && (rest != [] ==> Held(ApplyAll(v, first).disk, id))
  }

  lemma {:induction false} CutKeepsOrder(v: World, first: seq<Write>, rest: seq<Write>, n: nat, id: ProjectId)
    requires HoldComesFirst(v, first, rest, id) && n <= |first + rest|
    ensures var u := ApplyAll(v, (first + rest)[..n]);
            u.moves != v.moves ==> Held(u.disk, id)
  {
    if rest == [] {
      assert (first + rest)[..n] == first[..n];
      PointerKept(v, first[..n]);
    } else {
      MovedImpliesHeld(v, first, rest, n, id);
    }
  }

  lemma {:induction false} CutAfterRecovery(v: World, rec: seq<Write>, first: seq<Write>, rest: seq<Write>, own: seq<Write>, n: nat, id: ProjectId)
    requires HoldComesFirst(ApplyAll(v, rec), first, rest, id) && forall i :: 0 <= i < |rec| ==> KeepsPointer(rec[i])
    requires own == first + rest && n <= |rec + own|
    ensures var u := ApplyAll(v, (rec + own)[..n]);
            u.moves != v.moves ==> Held(u.disk, id)
  {
    ApplyAllConcat(v, rec, first);
    assert HoldComesFirst(v, rec + first, rest, id);
    assert rec + own == rec + first + rest;
    CutKeepsOrder(v, rec + first, rest, n, id);
  }

  lemma {:induction false} Behind(ws: seq<Write>, m: nat, id: ProjectId)
    requires m <= |ws| && forall i :: m <= i < |ws| ==> KeepsHold(ws[i], id)
    ensures forall i :: 0 <= i < |ws[m..]| ==> KeepsHold(ws[m..][i], id)
  {
  }

  lemma {:induction false} HoldIsSet(env: Env, v: World, r: RestoreRequest, k: RestoreWork, now: string)
    requires r.operationId !in v.disk.intents && r.operationId !in v.disk.receipts && Pending(v.disk) == {}
    requires !PlanHold(env, v.disk, r, k, now).out.Failed? && k.policy.projectId == r.projectId
    ensures Held(ApplyAll(v, PlanHold(env, v.disk, r, k, now).writes).disk, r.projectId)
  {
    HoldEffect(env, v, r, k, now);
  }

  /** The restore proper, in a state without pending operations, sets its hold first. */
  lemma {:induction false} BodyHoldsFirst(env: Env, v: World, r: RestoreRequest, k: RestoreWork, now: string)
    returns (first: seq<Write>, rest: seq<Write>)
    requires EnvOk(env) && k.policy.projectId == r.projectId
    requires r.operationId !in v.disk.intents && r.operationId !in v.disk.receipts && Pending(v.disk) == {}
    ensures PlanRestoreBody(env, v.disk, r, k, now).writes == first + rest && HoldComesFirst(v, first, rest, r.projectId)
  {
    HoldWritesKeepPointer(env, v, r, k, now);
    first, rest := PlanHold(env, v.disk, r, k, now).writes, [];
    if PlanHold(env, v.disk, r, k, now).out.Failed? {
      FailedHold(env, v, r, k, now);
    } else {
      RestoreTail(env, v, r, k, now);
      HoldIsSet(env, v, r, k, now);
      Behind(PlanRestoreBody(env, v.disk, r, k, now).writes, |first|, r.projectId);
      rest := PlanRestoreBody(env, v.disk, r, k, now).writes[|first|..];
    }
  }

  lemma {:induction false} FailedHold(env: Env, v: World, r: RestoreRequest, k: RestoreWork, now: string)
    requires EnvOk(env) && PlanHold(env, v.disk, r, k, now).out.Failed?
    ensures PlanRestoreBody(env, v.disk, r, k, now).writes == PlanHold(env, v.disk, r, k, now).writes + []
  {
  }

  /** The restore `r` passes all its checks on the recovered catalog. */
  ghost predicate PassesChecks(env: Env, d: Disk, r: RestoreRequest, now: string) {
    !LoadOperation(d, r.operationId).LookupIs? && CheckRestore(env, d, r, now).RestoreGo?
  }

  ghost function OwnWrites(env: Env, d: Disk, r: RestoreRequest, now: string): seq<Write>
    requires EnvOk(env) && PassesChecks(env, d, r, now)
  {
    PlanRestoreBody(env, d, r, CheckRestore(env, d, r, now).work, now).writes
  }

  lemma {:induction false} OwnWritesHoldFirst(env: Env, v: World, r: RestoreRequest, now: string) returns (first: seq<Write>, rest: seq<Write>)
    requires EnvOk(env) && Inv(env, false, v) && Pending(v.disk) <= {""} && PassesChecks(env, v.disk, r, now)
    ensures OwnWrites(env, v.disk, r, now) == first + rest && HoldComesFirst(v, first, rest, r.projectId)
  {
    RestoreReady(env, v, r, now);
    first, rest := BodyHoldsFirst(env, v, r, CheckRestore(env, v.disk, r, now).work, now);
  }

  /** A restore performs nothing, its recovery only, or its recovery and its own work. */
  lemma {:induction false} RestoreBranches(env: Env, d: Disk, r: RestoreRequest, now: string)
    requires EnvOk(env)
    ensures var ws, rec, d1 := PlanRestore(env, d, r, now).writes, PlanReconcile(env, d, "").writes, Recovered(env, d);
            ws == [] || ws == rec || (PassesChecks(env, d1, r, now) && ws == rec + OwnWrites(env, d1, r, now))
  {
    RestoreShape(env, d, r, now);
  }

  /** Recovery keeps the pointer, and leaves nothing pending. */
  lemma {:induction false} RecoveryForRestore(env: Env, v: World) returns (rec: seq<Write>, v1: World)
    requires EnvOk(env) && Inv(env, false, v)
    ensures rec == PlanReconcile(env, v.disk, "").writes && v1 == ApplyAll(v, rec) && v1.disk == Recovered(env, v.disk)
    ensures Inv(env, false, v1) && Pending(v1.disk) <= {""} && forall i :: 0 <= i < |rec| ==> KeepsPointer(rec[i])
  {
    rec := PlanReconcile(env, v.disk, "").writes;
    v1 := ApplyAll(v, rec);
    ReconcileWritesReceipts(env, v.disk, "");
    ReconcileOk(env, false, v, "");
  }

  /** A restore, wherever it stops, has moved the pointer only if the project's hold was on disk. */
  lemma {:induction false} RestoreHoldsFirst(env: Env, v: World, r: RestoreRequest, now: string, done: nat)
    requires EnvOk(env) && Inv(env, false, v)
    ensures var u := Step(env, v, Event(Restore(r), now, done));
            u.moves != v.moves ==> Held(u.disk, r.projectId)
  {
    var p := PlanRestore(env, v.disk, r, now);
    var n := if done <= |p.writes| then done else |p.writes|;
    assert PlanOf(env, v.disk, Restore(r), now) == p && Taken(p, done) == p.writes[..n];
    var rec, v1 := RecoveryForRestore(env, v);
    RestoreBranches(env, v.disk, r, now);
    if p.writes == rec || p.writes == [] {
      PointerKept(v, p.writes[..n]);
    } else {
      var first, rest := OwnWritesHoldFirst(env, v1, r, now);
      CutAfterRecovery(v, rec, first, rest, OwnWrites(env, v1.disk, r, now), n, r.projectId);
    }
  }

  lemma {:induction false} RestoreReady(env: Env, v: World, r: RestoreRequest, now: string)
    requires EnvOk(env) && Inv(env, false, v) && Pending(v.disk) <= {""}
    requires !LoadOperation(v.disk, r.operationId).LookupIs? && CheckRestore(env, v.disk, r, now).RestoreGo?
    ensures r.operationId !in v.disk.intents && r.operationId !in v.disk.receipts && Pending(v.disk) == {}
    ensures CheckRestore(env, v.disk, r, now).work.policy.projectId == r.projectId
  {
    NothingPending(env, v);
    KnownIsFound(env, v, r.operationId);
    NoReceiptWithoutIntent(env, v, r.operationId);
    ReadyWork(env, v, r, now);
  }

  lemma {:induction false} RestoreTail(env: Env, v: World, r: RestoreRequest, k: RestoreWork, now: string)
    requires EnvOk(env) && !PlanHold(env, v.disk, r, k, now).out.Failed?
    ensures var ws, held := PlanRestoreBody(env, v.disk, r, k, now).writes, PlanHold(env, v.disk, r, k, now).writes;
            && |held| <= |ws| && ws == held + ws[|held|..]
            && forall i :: |held| <= i < |ws| ==> KeepsHold(ws[i], r.projectId)
  {
    RestoreBodyShape(env, v.disk, r, k, now);
    var held := PlanHold(env, v.disk, r, k, now);
    PublishWrites(env, ApplyDiskAll(v.disk, held.writes), k.next, v.disk.active, RestoreMetadata(env, r), r.operationId, now);
  }

  // ---------------------------------------------------------------- guarded publications

  ghost function ProjectEntry(env: Env, d: Disk, id: ProjectId): Option<Entry> {
    var es := ActiveEntries(env, d);
    if EntryIndex(es, id) < 0 then None else Some(es[EntryIndex(es, id)])
  }

  lemma {:induction false} LastIsOnly(es: seq<Entry>, id: ProjectId, i: nat)
    requires UniqueProjects(es) && id != "" && i < |es| && es[i].projectId == id
    ensures LastEntry(es, id) == Some(es[i])
    decreases |es|
  {
    var n := |es| - 1;
    if i < n {
      assert es[n].projectId != id;
      LastIsOnly(es[..n], id, i);
    }
  }

  /** A project without a recorded change has the same entry in both generations. */
  lemma {:induction false} NoChangeSameEntry(env: Env, prior: seq<Entry>, next: seq<Entry>, id: ProjectId)
    requires EnvOk(env) && UniqueProjects(prior) && UniqueProjects(next) && id != ""
    requires EntryIndex(prior, id) >= 0
    requires forall c :: c in CardChanges(env, prior, next) ==> c.projectId != id
    ensures EntryIndex(next, id) >= 0 && next[EntryIndex(next, id)] == prior[EntryIndex(prior, id)]
  {
    var i, j := EntryIndex(prior, id), EntryIndex(next, id);
    LastIsOnly(prior, id, i);
    if j < 0 {
      Removed(env, prior, next, id);
    } else if env.entryHash(prior[i]) != env.entryHash(next[j]) {
      Altered(env, prior, next, next[j]);
    }
  }

  lemma {:induction false} Removed(env: Env, prior: seq<Entry>, next: seq<Entry>, id: ProjectId)
    requires EntryIndex(prior, id) >= 0 && EntryIndex(next, id) < 0 && id != "" && LastEntry(prior, id).Some?
    ensures exists c :: c in CardChanges(env, prior, next) && c.projectId == id
  {
    assert prior[EntryIndex(prior, id)] in prior;
    assert CardChange(id, env.entryHash(LastEntry(prior, id).value), "") in CardChanges(env, prior, next);
  }

  lemma {:induction false} Altered(env: Env, prior: seq<Entry>, next: seq<Entry>, e: Entry)
    requires e in next && e.projectId != "" && CardChangeOf(env, prior, e).Some?
    ensures exists c :: c in CardChanges(env, prior, next) && c.projectId == e.projectId
  {
    assert CardChangeOf(env, prior, e).value in CardChanges(env, prior, next);
  }

  predicate Automated(q: Request) {
    match q
    case PublishGuarded(s, _, _, _) => UniqueProjects(s.entries)
    case Reconcile => true
    case _ => false
  }

  ghost predicate Shielded(env: Env, d: Disk, id: ProjectId, e: Entry) {
    && Held(d, id) && ProjectEntry(env, d, id) == Some(e) && UniqueProjects(ActiveEntries(env, d))
  }

  /** What a guarded publication that gets as far as a write has checked. */
  lemma {:induction false} GuardedChecks(env: Env, d: Disk, s: Snapshot, expected: Hash, m: Metadata, guards: seq<Guard>, now: string)
    requires EnvOk(env)
    ensures PlanGuarded(env, d, s, expected, m, guards, now).writes != [] ==>
              && d.active == expected && (forall i :: 0 <= i < |guards| ==> GuardHolds(env, d, s, guards[i]))
              && SnapshotChanges(env, d, expected, s).Some? && GuardsCover(guards, SnapshotChanges(env, d, expected, s).value)
              && PlanGuarded(env, d, s, expected, m, guards, now) == PlanPublish(env, d, s, expected, m.(kind := Maintenance), "", now)
  {
  }

  /** So the new generation has the entry of a held project as it was. */
  lemma {:induction false} UnguardedStays(env: Env, v: World, s: Snapshot, guards: seq<Guard>, id: ProjectId, e: Entry)
    requires EnvOk(env) && Inv(env, false, v) && UniqueProjects(s.entries) && id != "" && Shielded(env, v.disk, id, e)
    requires forall i :: 0 <= i < |guards| ==> GuardHolds(env, v.disk, s, guards[i])
    requires SnapshotChanges(env, v.disk, v.disk.active, s).Some? && GuardsCover(guards, SnapshotChanges(env, v.disk, v.disk.active, s).value)
    ensures EntryIndex(s.entries, id) >= 0 && s.entries[EntryIndex(s.entries, id)] == e
  {
    HeldIsNotGuarded(env, v, s, guards, id);
    ActiveIsStored(env, v);
    NoChangeSameEntry(env, ActiveEntries(env, v.disk), s.entries, id);
  }

  lemma {:induction false} GuardedKeepsHeldEntry(env: Env, v: World, s: Snapshot, expected: Hash, m: Metadata, guards: seq<Guard>,
                              now: string, done: nat, id: ProjectId, e: Entry)
    requires EnvOk(env) && Inv(env, false, v) && UniqueProjects(s.entries) && id != "" && Shielded(env, v.disk, id, e)
    ensures Shielded(env, Step(env, v, Event(PublishGuarded(s, expected, m, guards), now, done)).disk, id, e)
  {
    var event := Event(PublishGuarded(s, expected, m, guards), now, done);
    var p := PlanGuarded(env, v.disk, s, expected, m, guards, now);
    var n := if done <= |p.writes| then done else |p.writes|;
    assert PlanOf(env, v.disk, event.request, now) == p && Taken(p, done) == p.writes[..n];
    GuardedChecks(env, v.disk, s, expected, m, guards, now);
    if p.writes != [] {
      PublishWrites(env, v.disk, s, expected, m.(kind := Maintenance), "", now);
      PublicationEffect(v, p.writes[..n], env.hash(s));
      StepGrows(env, v, event);
      UnguardedStays(env, v, s, guards, id, e);
      StillShielded(env, v, Step(env, v, event), s, id, e);
    }
  }

  lemma {:induction false} StillShielded(env: Env, v: World, u: World, s: Snapshot, id: ProjectId, e: Entry)
    requires EnvOk(env) && Inv(env, false, v) && Inv(env, false, u) && Grows(v, u) && Shielded(env, v.disk, id, e)
    requires u.disk.policies == v.disk.policies && (u.disk.active == v.disk.active || u.disk.active == env.hash(s))
    requires UniqueProjects(s.entries) && EntryIndex(s.entries, id) >= 0 && s.entries[EntryIndex(s.entries, id)] == e
    ensures Shielded(env, u.disk, id, e)
  {
    ActiveIsStored(env, v);
    ActiveIsStored(env, u);
    assert env.hash(u.disk.snapshots[u.disk.active]) == u.disk.active;
  }

  lemma {:induction false} HeldIsNotGuarded(env: Env, v: World, s: Snapshot, guards: seq<Guard>, id: ProjectId)
    requires Sound(env, v) && Held(v.disk, id)
    requires forall i :: 0 <= i < |guards| ==> GuardHolds(env, v.disk, s, guards[i])
    ensures forall i :: 0 <= i < |guards| ==> guards[i].projectId != id
  {
    forall i | 0 <= i < |guards|
      ensures guards[i].projectId != id
    {
      assert GuardHolds(env, v.disk, s, guards[i]);
    }
  }

  /** While a project is held, no run of automated publications and recoveries, cut off anywhere,
      changes its entry or its hold. */
  lemma {:induction false} HeldEntryIsShielded(env: Env, v: World, events: seq<Event>, id: ProjectId, e: Entry)
    requires EnvOk(env) && Inv(env, false, v) && id != "" && Shielded(env, v.disk, id, e)
    requires forall i :: 0 <= i < |events| ==> Automated(events[i].request)
    ensures Shielded(env, Run(env, v, events).disk, id, e)
    decreases |events|
  {
    if events != [] {
      var a := events[0];
      StepGrows(env, v, a);
      match a.request {
        case PublishGuarded(s, expected, m, guards) =>
          GuardedKeepsHeldEntry(env, v, s, expected, m, guards, a.now, a.done, id, e);
        case Reconcile =>
          ReconcileKeepsCatalog(env, v, a);
      }
      HeldEntryIsShielded(env, Step(env, v, a), events[1..], id, e);
    }
  }

  lemma {:induction false} ReconcileKeepsCatalog(env: Env, v: World, e: Event)
    requires EnvOk(env) && e.request == Reconcile
    ensures var u := Step(env, v, e);
            u.disk.active == v.disk.active && u.disk.policies == v.disk.policies && u.disk.snapshots == v.disk.snapshots
  {
    ReconcileWritesReceipts(env, v.disk, "");
    ReceiptsOnly(v, Taken(PlanReconcile(env, v.disk, ""), e.done));
  }

  lemma {:induction false} ReceiptsOnly(v: World, ws: seq<Write>)
    requires forall i :: 0 <= i < |ws| ==> ws[i].PutReceipt?
    ensures ApplyAll(v, ws) == v.(disk := v.disk.(receipts := ApplyAll(v, ws).disk.receipts))
    decreases |ws|
  {
    if ws != [] {
      ReceiptsOnly(Apply(v, ws[0]), ws[1..]);
    }
  }

  // ---------------------------------------------------------------- a completed restore

  /** `u` is `v` after operation `id` installed the generation `s`, recorded as applied. */
  ghost predicate Installed(env: Env, v: World, u: World, s: Snapshot, id: OpId, m: Metadata) {
    && u.disk.active == env.hash(s) && u.disk.snapshots == v.disk.snapshots[env.hash(s) := s]
    && u.moves == v.moves + [Move(id, v.disk.active, env.hash(s))]
    && u.disk.policies == v.disk.policies
    && id in u.disk.receipts && u.disk.receipts[id].status == Applied && u.disk.receipts[id].result == env.hash(s)
    && u.disk.receipts[id].metadata == m
    && u.disk.receipts[id].requestHash == if m.kind == RestoreMeta then m.checksum else ""
  }

  lemma {:induction false} PublishBodyEffect(env: Env, v: World, s: Snapshot, expected: Hash, m: Metadata, now: string)
    requires PlanPublishBody(env, v.disk, s, expected, m, now).out.Published?
    ensures Installed(env, v, ApplyAll(v, PlanPublishBody(env, v.disk, s, expected, m, now).writes), s,
                      PublishId(env, expected, env.hash(s), m), m)
  {
    var h := env.hash(s);
    var stored := PlanSnapshot(v.disk, h, s).writes;
    PublishBodyShape(env, v.disk, s, expected, m, now);
    StoredEffect(v, h, s);
    var v1 := ApplyAll(v, stored);
    ApplyAllDisk(v, stored);
    var intent := PublishIntent(env, expected, h, m, SnapshotChanges(env, v1.disk, expected, s).value, now);
    var announced := PlanIntent(v1.disk, intent).writes;
    AnnouncedEffect(v1, intent);
    var v2 := Announced(v1, intent);
    var receipt := AppliedReceipt(intent, h);
    var recorded := PlanReceipt(v1.disk, receipt);
    var w := MovePointer(intent.operationId, h);
    var v3 := Apply(v2, w);
    assert recorded == PlanReceipt(v3.disk, receipt);
    RecordedEffect(v3, receipt);
    ApplyAllConcat(v2, [w], recorded.writes);
    assert ApplyAll(v2, [w]) == v3 by { assert [w][1..] == []; }
    ApplyAllConcat(v1, announced, [w] + recorded.writes);
    ApplyAllConcat(v, stored, announced + ([w] + recorded.writes));
  }

  lemma {:induction false} PublishEffect(env: Env, v: World, s: Snapshot, expected: Hash, m: Metadata, skip: OpId, now: string)
    requires EnvOk(env) && PlanPublish(env, v.disk, s, expected, m, skip, now).out.Published?
    ensures expected == v.disk.active
    ensures Installed(env, v, ApplyAll(v, PlanPublish(env, v.disk, s, expected, m, skip, now).writes), s,
                      PublishId(env, expected, env.hash(s), m), m)
  {
    var rec := PlanReconcile(env, v.disk, skip).writes;
    ReconcileWritesReceipts(env, v.disk, skip);
    ReceiptsOnly(v, rec);
    ApplyAllDisk(v, rec);
    var v1 := ApplyAll(v, rec);
    PublishBodyEffect(env, v1, s, expected, m, now);
    ApplyAllConcat(v, rec, PlanPublishBody(env, v1.disk, s, expected, m, now).writes);
  }

  /** `u` is `v` after the restore `k`: one new generation, the project held, nothing else changed. */
  ghost predicate RestoreDone(env: Env, v: World, u: World, r: RestoreRequest, k: RestoreWork) {
    && u.disk.active == k.target && u.disk.snapshots == v.disk.snapshots[k.target := k.next]
    && u.moves == v.moves + [Move(r.operationId, v.disk.active, k.target)]
    && Held(u.disk, r.projectId)
    && (forall id :: id in v.disk.policies && id != r.projectId ==>
          id in u.disk.policies && u.disk.policies[id] == v.disk.policies[id])
    && RecordedAsRestored(env, u.disk, r)
  }

  /** The journal says that the restore `r` took place and installed the active generation. */
  ghost predicate RecordedAsRestored(env: Env, d: Disk, r: RestoreRequest) {
    && r.operationId in d.receipts && d.receipts[r.operationId].status == Applied
    && d.receipts[r.operationId].result == d.active
    && d.receipts[r.operationId].metadata.kind == RestoreMeta
    && d.receipts[r.operationId].requestHash == RequestDigest(env, r)
  }

  lemma {:induction false} ComposeRestore(env: Env, v: World, held: seq<Write>, published: seq<Write>, r: RestoreRequest, k: RestoreWork,
                       p: Policy, q: Policy)
    requires var v1 := ApplyAll(v, held);
             && v1.disk.policies == v.disk.policies[p.projectId := p] && v1.disk.snapshots == v.disk.snapshots
             && v1.disk.active == v.disk.active && v1.moves == v.moves
             && Installed(env, v1, ApplyAll(v1, published), k.next, r.operationId, RestoreMetadata(env, r))
    requires p.projectId == q.projectId == r.projectId && q.hold && k.target == env.hash(k.next)
    ensures RestoreDone(env, v, ApplyAll(v, held + (published + [PutPolicy("", q)])), r, k)
  {
    var w := PutPolicy("", q);
    var v1 := ApplyAll(v, held);
    var v2 := ApplyAll(v1, published);
    ApplyAllConcat(v1, published, [w]);
    assert ApplyAll(v2, [w]) == Apply(v2, w) by { assert [w][1..] == []; }
    ApplyAllConcat(v, held, published + [w]);
  }

  lemma {:induction false} RestoreBodyEffect(env: Env, v: World, r: RestoreRequest, k: RestoreWork, now: string)
    requires EnvOk(env) && r.operationId != ""
    requires r.operationId !in v.disk.intents && r.operationId !in v.disk.receipts && Pending(v.disk) == {}
    requires k.target == env.hash(k.next) && k.policy.projectId == r.projectId
    requires PlanRestoreBody(env, v.disk, r, k, now).out.Answered?
    ensures RestoreDone(env, v, ApplyAll(v, PlanRestoreBody(env, v.disk, r, k, now).writes), r, k)
  {
    RestoreBodyShape(env, v.disk, r, k, now);
    var held := PlanHold(env, v.disk, r, k, now);
    var m := RestoreMetadata(env, r);
    var published := PlanPublish(env, ApplyDiskAll(v.disk, held.writes), k.next, v.disk.active, m, r.operationId, now);
    PublishIsNoAnswer(env, ApplyDiskAll(v.disk, held.writes), k.next, v.disk.active, m, r.operationId, now);
    if held.out.Failed? || published.out.Failed? {
      assert false;
    } else {
      HoldEffect(env, v, r, k, now);
      ApplyAllDisk(v, held.writes);
      PublishEffect(env, ApplyAll(v, held.writes), k.next, v.disk.active, m, r.operationId, now);
      var p := HeldPolicy(env, r, k, now);
      ComposeRestore(env, v, held.writes, published.writes, r, k, p, p.(currentEntryHash := env.entryHash(k.restored)));
    }
  }

  lemma {:induction false} PublishIsNoAnswer(env: Env, d: Disk, s: Snapshot, expected: Hash, m: Metadata, skip: OpId, now: string)
    requires EnvOk(env)
    ensures PlanPublish(env, d, s, expected, m, skip, now).out.Published? || PlanPublish(env, d, s, expected, m, skip, now).out.Failed?
  {
  }

  /** The generation `next` is the active one of `v` with the project's description replaced by the
      one it had in the generation `r.historicalHash`, which was once active. */
  ghost predicate Replaces(env: Env, v: World, r: RestoreRequest, next: seq<Entry>) {
    var was := ActiveEntries(env, v.disk);
    var i := EntryIndex(was, r.projectId);
    && v.disk.active == r.expectedCurrentHash && i >= 0
    && r.historicalHash in History(v.moves) && r.historicalHash in v.disk.snapshots
    && var past := v.disk.snapshots[r.historicalHash].entries;
       && EntryIndex(past, r.projectId) >= 0
       && next == was[i := RestoreDescription(was[i], past[EntryIndex(past, r.projectId)])]
  }

  /** What a restore that goes ahead has checked. */
  lemma {:induction false} RestoreGoes(env: Env, v: World, r: RestoreRequest, now: string)
    requires EnvOk(env) && Inv(env, false, v)
    ensures CheckRestore(env, v.disk, r, now).RestoreGo? ==>
              var k := CheckRestore(env, v.disk, r, now).work;
              Replaces(env, v, r, k.next.entries) && Valid(env, k.next) && k.target == env.hash(k.next)
    ensures CheckRestore(env, v.disk, r, now).RestoreStops? ==>
              CheckRestore(env, v.disk, r, now).out.Answered? ==> CheckRestore(env, v.disk, r, now).out.answer != AnswerRestored
  {
    if v.disk.active != "" {
      ActiveIsStored(env, v);
      FoundIsHistory(env, v, r.historicalHash);
    }
  }

  lemma {:induction false} FoundIsHistory(env: Env, v: World, h: Hash)
    requires EnvOk(env) && Sound(env, v)
    ensures InAncestry(env, v.disk, v.disk.active, h, []) == Found ==> h in History(v.moves)
  {
    MembershipFrom(env, v, |v.moves|, h, []);
    HistoryIn(v.moves, h);
  }

  ghost predicate Restores(env: Env, d: Disk, r: RestoreRequest, now: string)
    requires EnvOk(env)
  {
    PlanRestore(env, d, r, now).out.Answered? && PlanRestore(env, d, r, now).out.answer == AnswerRestored
  }

  lemma {:induction false} RestoresGo(env: Env, v: World, r: RestoreRequest, now: string)
    requires EnvOk(env) && Inv(env, false, v) && Restores(env, v.disk, r, now)
    ensures var d := Recovered(env, v.disk);
            && r.operationId != "" && !LoadOperation(d, r.operationId).LookupIs? && CheckRestore(env, d, r, now).RestoreGo?
            && var body := PlanRestoreBody(env, d, r, CheckRestore(env, d, r, now).work, now);
               && PlanRestore(env, v.disk, r, now).writes == PlanReconcile(env, v.disk, "").writes + body.writes
               && body.out.Answered?
  {
    RestoreShape(env, v.disk, r, now);
    ReconcileOk(env, false, v, "");
    RestoreGoes(env, ApplyAll(v, PlanReconcile(env, v.disk, "").writes), r, now);
  }

  /** A restore that reports success has installed exactly one generation: the active one with the
      project's description replaced by the historical one. The project is held, no other policy
      changed, and the journal says "applied". */
  lemma {:induction false} CompletedRestore(env: Env, v: World, r: RestoreRequest, now: string)
    requires EnvOk(env) && Inv(env, false, v) && Restores(env, v.disk, r, now)
    ensures var u := ApplyAll(v, PlanRestore(env, v.disk, r, now).writes);
            && Replaces(env, v, r, ActiveEntries(env, u.disk))
            && u.moves == v.moves + [Move(r.operationId, v.disk.active, u.disk.active)]
            && Held(u.disk, r.projectId)
            && (forall id :: id in v.disk.policies && id != r.projectId ==>
                  id in u.disk.policies && u.disk.policies[id] == v.disk.policies[id])
            && RecordedAsRestored(env, u.disk, r)
  {
    var rec := PlanReconcile(env, v.disk, "").writes;
    RestoresGo(env, v, r, now);
    ReconcileOk(env, false, v, "");
    ReconcileWritesReceipts(env, v.disk, "");
    ReceiptsOnly(v, rec);
    var v1 := ApplyAll(v, rec);
    RestoreGoes(env, v1, r, now);
    RestoreReady(env, v1, r, now);
    var k := CheckRestore(env, v1.disk, r, now).work;
    var body := PlanRestoreBody(env, v1.disk, r, k, now).writes;
    RestoreBodyEffect(env, v1, r, k, now);
    ApplyAllConcat(v, rec, body);
    SameCatalog(env, v, v1, r, k.next.entries);
    NewActive(env, ApplyAll(v1, body).disk, k.target, k.next);
  }

  lemma {:induction false} SameCatalog(env: Env, v: World, u: World, r: RestoreRequest, next: seq<Entry>)
    requires u == v.(disk := v.disk.(receipts := u.disk.receipts)) && Replaces(env, u, r, next)
    ensures Replaces(env, v, r, next)
  {
  }

  lemma {:induction false} NewActive(env: Env, d: Disk, h: Hash, s: Snapshot)
    requires d.active == h == env.hash(s) && h != "" && h in d.snapshots && d.snapshots[h] == s && Valid(env, s)
    ensures ActiveEntries(env, d) == s.entries
  {
  }

  /** The project's entry as a restore leaves it: today's identity, the historical description. */
  ghost function RestoredEntry(env: Env, d: Disk, r: RestoreRequest): (e: Option<Entry>)
  {
    var was := ProjectEntry(env, d, r.projectId);
    if r.historicalHash !in d.snapshots || was.None? then None
    else
      var past := d.snapshots[r.historicalHash].entries;
      var i := EntryIndex(past, r.projectId);
      if i < 0 then None else Some(RestoreDescription(was.value, past[i]))
  }

  lemma {:induction false} ReplacedEntry(env: Env, v: World, u: World, r: RestoreRequest)
    requires Replaces(env, v, r, ActiveEntries(env, u.disk)) && UniqueProjects(ActiveEntries(env, v.disk))
    ensures RestoredEntry(env, v.disk, r).Some?
    ensures Held(u.disk, r.projectId) ==> Shielded(env, u.disk, r.projectId, RestoredEntry(env, v.disk, r).value)
  {
    var was, next := ActiveEntries(env, v.disk), ActiveEntries(env, u.disk);
    var i := EntryIndex(was, r.projectId);
    assert next[i] == RestoredEntry(env, v.disk, r).value;
    assert forall j :: 0 <= j < |was| ==> next[j].projectId == was[j].projectId;
  }

  lemma {:induction false} RestoredShield(env: Env, v: World, r: RestoreRequest, now: string)
    requires EnvOk(env) && Inv(env, false, v) && UniqueProjects(ActiveEntries(env, v.disk)) && Restores(env, v.disk, r, now)
    ensures RestoredEntry(env, v.disk, r).Some?
    ensures Shielded(env, ApplyAll(v, PlanRestore(env, v.disk, r, now).writes).disk, r.projectId, RestoredEntry(env, v.disk, r).value)
  {
    CompletedRestore(env, v, r, now);
    ReplacedEntry(env, v, ApplyAll(v, PlanRestore(env, v.disk, r, now).writes), r);
  }

  /** From a successful restore on, and until somebody changes the project's policy or edits the
      catalog by hand, no run of automated publications and recoveries changes its entry. */
  lemma {:induction false} RestoredEntryIsShielded(env: Env, v: World, r: RestoreRequest, now: string, events: seq<Event>)
    requires EnvOk(env) && Inv(env, false, v) && ReasonFits(r) && UniqueProjects(ActiveEntries(env, v.disk))
    requires r.projectId != "" && Restores(env, v.disk, r, now)
    requires forall i :: 0 <= i < |events| ==> Automated(events[i].request)
    ensures var u := Run(env, ApplyAll(v, PlanRestore(env, v.disk, r, now).writes), events);
            RestoredEntry(env, v.disk, r).Some? && ProjectEntry(env, u.disk, r.projectId) == RestoredEntry(env, v.disk, r)
  {
    var ws := PlanRestore(env, v.disk, r, now).writes;
    RestoredShield(env, v, r, now);
    RequestOk(env, false, v, Restore(r), now);
    assert PlanOf(env, v.disk, Restore(r), now).writes == ws;
    PlanKeepsInv(env, false, v, ws);
    HeldEntryIsShielded(env, ApplyAll(v, ws), events, r.projectId, RestoredEntry(env, v.disk, r).value);
  }
}
