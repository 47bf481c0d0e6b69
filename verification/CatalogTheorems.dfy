/** What holds over whole runs of the catalog directory. */
module CatalogTheorems {
  import opened CatalogTypes
  import opened CatalogJournal
  import opened CatalogInvariant
  import opened CatalogSteps

  predicate AdmissibleRun(events: seq<Event>) {
    forall i :: 0 <= i < |events| ==> Admissible(events[i].request)
  }

  /** Along the run, no request uses an operation id that already has a receipt. */
  ghost predicate FreshRun(env: Env, v: World, events: seq<Event>)
    requires EnvOk(env)
    decreases |events|
  {
    events == [] || (FreshIds(env, v.disk, events[0].request, events[0].now)
                     && FreshRun(env, Step(env, v, events[0]), events[1..]))
  }

  lemma {:induction false} RunKeepsInv(env: Env, t: bool, v: World, events: seq<Event>)
    requires EnvOk(env) && Inv(env, t, v) && AdmissibleRun(events)
    requires t ==> FreshRun(env, v, events)
    ensures Inv(env, t, Run(env, v, events))
    decreases |events|
  {
    if events != [] {
      StepKeepsInv(env, t, v, events[0]);
      RunKeepsInv(env, t, Step(env, v, events[0]), events[1..]);
    }
  }

  // ---------------------------------------------------------------- recovery

  /** After any run, with every operation cut off anywhere, recovery never reports an ambiguous
      or damaged journal and leaves no operation without a receipt. */
  lemma {:induction false} RecoveryNeverAmbiguous(env: Env, events: seq<Event>)
    requires EnvOk(env) && AdmissibleRun(events)
    ensures var v := Run(env, EMPTY_WORLD, events);
            && PlanReconcile(env, v.disk, "").out == Reconciled
            && Pending(Recovered(env, v.disk)) == {}
            && Recovered(env, v.disk).active == v.disk.active
  {
    EmptyIsSound(env);
    RunKeepsInv(env, false, EMPTY_WORLD, events);
    var v := Run(env, EMPTY_WORLD, events);
    ReconcileOk(env, false, v, "");
    NothingPending(env, ApplyAll(v, PlanReconcile(env, v.disk, "").writes));
  }

  /** With fresh operation ids, a publish or restore has an `applied` receipt exactly when its own
      pointer move took place, and a policy change exactly when its own policy write did. */
  lemma {:induction false} ReceiptsTellTheTruth(env: Env, events: seq<Event>, id: OpId)
    requires EnvOk(env) && AdmissibleRun(events) && FreshRun(env, EMPTY_WORLD, events)
    ensures var v := Run(env, EMPTY_WORLD, events);
            id in v.disk.receipts ==>
              && id in v.disk.intents
              && (PointerKind(v.disk.intents[id].kind) ==>
                    (v.disk.receipts[id].status != NotApplied <==> Moved(v, id)))
              && (PolicyKind(v.disk.intents[id].kind) ==>
                    (v.disk.receipts[id].status != NotApplied <==> id in v.saves))
  {
    EmptyIsSound(env);
    RunKeepsInv(env, true, EMPTY_WORLD, events);
    var v := Run(env, EMPTY_WORLD, events);
    if id in v.disk.receipts {
      assert ReceiptOk(v.disk, id);
      assert TrueAccount(v, id);
    }
  }

  /** Recovery settles every interrupted operation the right way round. */
  lemma {:induction false} RecoveryTellsTheTruth(env: Env, events: seq<Event>, id: OpId)
    requires EnvOk(env) && AdmissibleRun(events) && FreshRun(env, EMPTY_WORLD, events)
    ensures var v := Run(env, EMPTY_WORLD, events);
            var d := Recovered(env, v.disk);
            id in v.disk.intents ==>
              && id in d.receipts
              && (PointerKind(v.disk.intents[id].kind) ==> (d.receipts[id].status != NotApplied <==> Moved(v, id)))
              && (PolicyKind(v.disk.intents[id].kind) ==> (d.receipts[id].status != NotApplied <==> id in v.saves))
  {
    EmptyIsSound(env);
    RunKeepsInv(env, true, EMPTY_WORLD, events);
    var v := Run(env, EMPTY_WORLD, events);
    ReconcileOk(env, true, v, "");
    var u := ApplyAll(v, PlanReconcile(env, v.disk, "").writes);
    NothingPending(env, u);
    if id in v.disk.intents {
      assert TrueAccount(u, id);
      assert id in u.disk.intents && id !in Pending(u.disk);
    }
  }

  // ---------------------------------------------------------------- reused operation ids

  lemma {:induction false} ReusedShape(env: Env, v: World, s: Snapshot, expected: Hash, m: Metadata, now: string)
    requires PlanSnapshot(v.disk, env.hash(s), s).out == Continue
    requires var id := PublishId(env, expected, env.hash(s), m);
             id in v.disk.receipts && id in v.disk.intents && v.disk.receipts[id].status == NotApplied
    requires ValidMetadata(m) && PublishId(env, expected, env.hash(s), m) != ""
    requires var p := PlanPublishBody(env, v.disk, s, expected, m, now);
             exists i :: 0 <= i < |p.writes| && p.writes[i].MovePointer?
    ensures var id := PublishId(env, expected, env.hash(s), m);
            var p := PlanPublishBody(env, v.disk, s, expected, m, now);
            && p.out == Failed(ReceiptExists)
            && p.writes == PlanSnapshot(v.disk, env.hash(s), s).writes + [MovePointer(id, env.hash(s))]
  {
    var h := env.hash(s);
    var stored := PlanSnapshot(v.disk, h, s);
    var d1 := ApplyDiskAll(v.disk, stored.writes);
    StoredDisk(v.disk, h, s);
    PublishBodyShape(env, v.disk, s, expected, m, now);
    var changes := SnapshotChanges(env, d1, expected, s);
    assert changes.Some?;
    var intent := PublishIntent(env, expected, h, m, changes.value, now);
    assert PlanReceipt(d1, AppliedReceipt(intent, h)) == Plan([], Failed(ReceiptExists));
    assert PlanIntent(d1, intent).writes == [];
  }

  /** A publication whose id already has a receipt moves the pointer, reports an error, and leaves
      a journal that says it was not applied. */
  lemma {:induction false} ReusedIdIsMisrecorded(env: Env, v: World, s: Snapshot, expected: Hash, m: Metadata, now: string)
    requires EnvOk(env) && Inv(env, true, v) && PublishInputOk(env, s, expected, m) && v.disk.active == expected
    requires PublishId(env, expected, env.hash(s), m) in v.disk.receipts
    requires var p := PlanPublishBody(env, v.disk, s, expected, m, now);
             exists i :: 0 <= i < |p.writes| && p.writes[i].MovePointer?
    ensures var p := PlanPublishBody(env, v.disk, s, expected, m, now);
            var u := ApplyAll(v, p.writes);
            var id := PublishId(env, expected, env.hash(s), m);
            && p.out == Failed(ReceiptExists)
            && u.disk.active == env.hash(s) && Moved(u, id) && id in u.disk.receipts
            && u.disk.receipts[id].status == NotApplied && !Truthful(u)
  {
    var id := PublishId(env, expected, env.hash(s), m);
    SnapshotPlanOk(env, true, v, s);
    ReusedHasReceipt(env, v, s, expected, m, now);
    ReusedShape(env, v, s, expected, m, now);
    ReusedEffect(env, v, s, id);
  }

  lemma {:induction false} ReusedEffect(env: Env, v: World, s: Snapshot, id: OpId)
    requires id in v.disk.receipts && id in v.disk.intents && v.disk.receipts[id].status == NotApplied
    requires PointerKind(v.disk.intents[id].kind)
    requires var stored := PlanSnapshot(v.disk, env.hash(s), s);
             stored.out == Continue
    ensures var u := ApplyAll(v, PlanSnapshot(v.disk, env.hash(s), s).writes + [MovePointer(id, env.hash(s))]);
            && u.disk.active == env.hash(s) && Moved(u, id) && id in u.disk.receipts
            && u.disk.receipts[id].status == NotApplied && !Truthful(u)
  {
    var ws, w := PlanSnapshot(v.disk, env.hash(s), s).writes, MovePointer(id, env.hash(s));
    ApplyAllConcat(v, ws, [w]);
    assert [w][1..] == [];
    if ws != [] {
      assert ws[1..] == [];
    }
    var v1 := ApplyAll(v, ws);
    var u := Apply(v1, w);
    assert u.moves[|v1.moves|].op == id;
    assert !TrueAccount(u, id);
  }

  lemma {:induction false} ReusedHasReceipt(env: Env, v: World, s: Snapshot, expected: Hash, m: Metadata, now: string)
    requires EnvOk(env) && Inv(env, true, v) && PublishInputOk(env, s, expected, m) && v.disk.active == expected
    requires PublishId(env, expected, env.hash(s), m) in v.disk.receipts
    requires var p := PlanPublishBody(env, v.disk, s, expected, m, now);
             exists i :: 0 <= i < |p.writes| && p.writes[i].MovePointer?
    ensures var id := PublishId(env, expected, env.hash(s), m);
            && id != "" && id in v.disk.intents && PointerKind(v.disk.intents[id].kind)
            && v.disk.receipts[id].status == NotApplied
  {
    assert ReceiptOk(v.disk, PublishId(env, expected, env.hash(s), m));
    SnapshotPlanOk(env, true, v, s);
    var intent := MovingIntent(env, v.disk, s, expected, m, now);
    ReusedReceipt(env, v, s, intent);
  }

  /** A publication that moves the pointer has found the same intent under its id, if there was one. */
  lemma {:induction false} MovingIntent(env: Env, d: Disk, s: Snapshot, expected: Hash, m: Metadata, now: string) returns (intent: Record)
    requires PlanSnapshot(d, env.hash(s), s).out == Continue
    requires var p := PlanPublishBody(env, d, s, expected, m, now);
             exists i :: 0 <= i < |p.writes| && p.writes[i].MovePointer?
    ensures exists changes :: intent == PublishIntent(env, expected, env.hash(s), m, changes, now)
    ensures intent.operationId in d.intents ==> SameIntent(d.intents[intent.operationId], intent)
  {
    StoredDisk(d, env.hash(s), s);
    PublishBodyShape(env, d, s, expected, m, now);
    var d1 := ApplyDiskAll(d, PlanSnapshot(d, env.hash(s), s).writes);
    intent := PublishIntent(env, expected, env.hash(s), m, SnapshotChanges(env, d1, expected, s).value, now);
  }

  /** The receipt of a reused id can only say "not applied": an applied one would have installed
      the very generation that is about to extend the active one. */
  lemma {:induction false} ReusedReceipt(env: Env, v: World, s: Snapshot, intent: Record)
    requires EnvOk(env) && Inv(env, true, v) && intent.operationId in v.disk.receipts
    requires intent.operationId in v.disk.intents && SameIntent(v.disk.intents[intent.operationId], intent)
    requires env.hash(s) == intent.target && s.parent == intent.source == v.disk.active && PointerKind(intent.kind)
    ensures v.disk.receipts[intent.operationId].status == NotApplied
    ensures !Moved(v, intent.operationId)
  {
    var id := intent.operationId;
    assert ReceiptOk(v.disk, id) && TrueAccount(v, id);
    NewTargetIsNew(env, v, intent.target);
    forall i | 0 <= i < |v.moves|
      ensures v.moves[i].op != id
    {
      assert MoveAnnounced(v, i);
    }
  }

  /** Exactly the reuse of an id with a receipt breaks the journal: a publication that gets as far
      as moving the pointer leaves it truthful if and only if its id had no receipt. */
  lemma {:induction false} PublicationStaysTruthfulIffFresh(env: Env, v: World, s: Snapshot, expected: Hash, m: Metadata, now: string)
    requires EnvOk(env) && Inv(env, true, v) && PublishInputOk(env, s, expected, m) && v.disk.active == expected
    requires Pending(v.disk) == {}
    requires var p := PlanPublishBody(env, v.disk, s, expected, m, now);
             exists i :: 0 <= i < |p.writes| && p.writes[i].MovePointer?
    ensures Truthful(ApplyAll(v, PlanPublishBody(env, v.disk, s, expected, m, now).writes))
            <==> PublishId(env, expected, env.hash(s), m) !in v.disk.receipts
  {
    if PublishId(env, expected, env.hash(s), m) in v.disk.receipts {
      ReusedIdIsMisrecorded(env, v, s, expected, m, now);
    } else {
      PublishBodyOk(env, true, v, s, expected, m, now);
      PlanKeepsInv(env, true, v, PlanPublishBody(env, v.disk, s, expected, m, now).writes);
    }
  }

  /** The same for a change of a project's policy or hold: one that gets as far as saving the policy
      leaves the journal truthful exactly unless its id has a receipt that says "not applied". */
  lemma {:induction false} PolicyChangeStaysTruthfulIff(env: Env, v: World, asked: Policy, e: Hash, n: nat, now: string)
    requires EnvOk(env) && Inv(env, true, v) && Pending(v.disk) == {} && PlanPolicyBody(env, v.disk, asked, e, n, now).writes != []
    ensures PolicyChangeId(env, v.disk, asked, now).Some?
    ensures var id := PolicyChangeId(env, v.disk, asked, now).value;
            Truthful(ApplyAll(v, PlanPolicyBody(env, v.disk, asked, e, n, now).writes))
            <==> !(id in v.disk.receipts && v.disk.receipts[id].status == NotApplied)
  {
    var ws := PlanPolicyBody(env, v.disk, asked, e, n, now).writes;
    PolicyBodyShape(env, v.disk, asked, e, n, now);
    var p := ChangedPolicy(env, v.disk, asked, now);
    var intent := PolicyIntent(env, v.disk.active, p);
    NoReceiptWithoutIntent(env, v, intent.operationId);
    if intent.operationId in v.disk.receipts {
      WritesAgain(v, intent, p);
      SavedAgain(v, intent.operationId, p);
    } else {
      PolicyBodyOk(env, true, v, asked, e, n, now);
      PlanKeepsInv(env, true, v, ws);
    }
  }

  lemma {:induction false} WritesAgain(v: World, intent: Record, p: Policy)
    requires intent.operationId in v.disk.intents && intent.operationId in v.disk.receipts
    ensures ApplyAll(v, PolicyWrites(v.disk, intent, p)) == Apply(v, PutPolicy(intent.operationId, p))
  {
    var w := PutPolicy(intent.operationId, p);
    assert PolicyWrites(v.disk, intent, p) == [w] && [w][1..] == [];
  }

  lemma {:induction false} SavedAgain(v: World, id: OpId, p: Policy)
    requires Truthful(v) && OthersArePointers(v.disk, id) && id != "" && id in v.disk.intents && PolicyKind(v.disk.intents[id].kind)
    requires id in v.disk.receipts
    ensures Truthful(Apply(v, PutPolicy(id, p))) <==> v.disk.receipts[id].status != NotApplied
  {
    var u := Apply(v, PutPolicy(id, p));
    assert u.saves == v.saves + {id};
    assert TrueAccount(v, id);
    forall k | k in v.disk.intents && k != id
      ensures TrueAccount(u, k)
    {
      assert TrueAccount(v, k) && (k in Pending(v.disk) ==> PointerKind(v.disk.intents[k].kind));
    }
    assert forall i :: 0 <= i < |u.moves| ==> MoveAnnounced(v, i) && MoveAnnounced(u, i);
    assert TrueAccount(u, id) <==> v.disk.receipts[id].status != NotApplied;
  }

  // ---------------------------------------------------------------- append-only history

  ghost predicate Grows(v: World, u: World) {
    && v.moves <= u.moves
    && (forall h :: h in v.disk.snapshots ==> h in u.disk.snapshots && u.disk.snapshots[h] == v.disk.snapshots[h])
    && (forall id :: id in v.disk.intents ==> id in u.disk.intents && u.disk.intents[id] == v.disk.intents[id])
    && (forall id :: id in v.disk.receipts ==> id in u.disk.receipts && u.disk.receipts[id] == v.disk.receipts[id])
  }

  ghost function GrownFrom(env: Env, v: World): World -> bool {
    (u: World) => Inv(env, false, u) && Grows(v, u)
  }

  lemma {:induction false} GrowthIsKept(env: Env, v: World)
    requires EnvOk(env)
    ensures Kept(GrownFrom(env, v), OkFn(env, false))
  {
    forall u, w | Inv(env, false, u) && Grows(v, u) && Ok(env, false, u, w)
      ensures Inv(env, false, Apply(u, w)) && Grows(v, Apply(u, w))
    {
      SafeKeepsSound(env, u, w);
    }
  }

  lemma {:induction false} StepGrows(env: Env, v: World, e: Event)
    requires EnvOk(env) && Inv(env, false, v) && Admissible(e.request)
    ensures Inv(env, false, Step(env, v, e)) && Grows(v, Step(env, v, e))
  {
    RequestOk(env, false, v, e.request, e.now);
    GrowthIsKept(env, v);
    var p := PlanOf(env, v.disk, e.request, e.now);
    var k := if e.done <= |p.writes| then e.done else |p.writes|;
    EveryPrefix(GrownFrom(env, v), OkFn(env, false), v, p.writes, k);
    assert Taken(p, e.done) == p.writes[..k];
  }

  lemma {:induction false} RunGrows(env: Env, v: World, events: seq<Event>)
    requires EnvOk(env) && Inv(env, false, v) && AdmissibleRun(events)
    ensures Inv(env, false, Run(env, v, events)) && Grows(v, Run(env, v, events))
    decreases |events|
  {
    if events != [] {
      StepGrows(env, v, events[0]);
      RunGrows(env, Step(env, v, events[0]), events[1..]);
    }
  }

  lemma {:induction false} HistoryPrefix(a: seq<Move>, b: seq<Move>)
    requires a <= b
    ensures |History(a)| == |a| <= |b| == |History(b)| && History(a) == History(b)[|b| - |a|..]
  {
    HistoryAt(a);
    HistoryAt(b);
    assert forall k :: 0 <= k < |a| ==> History(a)[k] == History(b)[|b| - |a| + k];
  }

  /** From any reachable state on, whatever happens: the ancestry that a reader walks is finite,
      free of repetitions, and ends with the whole ancestry that was there before; stored
      generations and journal records never change. */
  lemma {:induction false} HistoryIsAppendOnly(env: Env, earlier: seq<Event>, later: seq<Event>)
    requires EnvOk(env) && AdmissibleRun(earlier) && AdmissibleRun(later)
    ensures var v := Run(env, EMPTY_WORLD, earlier);
            var u := Run(env, v, later);
            var past, present := Walk(env, v.disk, v.disk.active, []), Walk(env, u.disk, u.disk.active, []);
            && past.Some? && present.Some?
            && |past.value| <= |present.value| && past.value == present.value[|present.value| - |past.value|..]
            && (forall i, j :: 0 <= i < j < |present.value| ==> present.value[i] != present.value[j])
            && Grows(v, u)
  {
    EmptyIsSound(env);
    RunGrows(env, EMPTY_WORLD, earlier);
    var v := Run(env, EMPTY_WORLD, earlier);
    RunGrows(env, v, later);
    var u := Run(env, v, later);
    AncestryGrows(env, v, u);
  }

  lemma {:induction false} AncestryGrows(env: Env, v: World, u: World)
    requires EnvOk(env) && Sound(env, v) && Sound(env, u) && v.moves <= u.moves
    ensures var past, present := Walk(env, v.disk, v.disk.active, []), Walk(env, u.disk, u.disk.active, []);
            && past.Some? && present.Some?
            && |past.value| <= |present.value| && past.value == present.value[|present.value| - |past.value|..]
            && (forall i, j :: 0 <= i < j < |present.value| ==> present.value[i] != present.value[j])
  {
    WalkIsHistory(env, v);
    WalkIsHistory(env, u);
    HistoryPrefix(v.moves, u.moves);
    HistoryDistinct(u);
  }

  /** Every generation that was ever installed names as its parent the generation that was active
      just before, so ranks along the ancestry strictly decrease. */
  lemma {:induction false} ParentIsPreviousActive(env: Env, events: seq<Event>, i: nat)
    requires EnvOk(env) && AdmissibleRun(events) && i < |Run(env, EMPTY_WORLD, events).moves|
    ensures var v := Run(env, EMPTY_WORLD, events);
              && v.moves[i].target in v.disk.snapshots
              && v.disk.snapshots[v.moves[i].target].parent == (if i == 0 then "" else v.moves[i - 1].target)
              && InAncestry(env, v.disk, v.disk.active, v.moves[i].target, []) == Found
  {
    EmptyIsSound(env);
    RunKeepsInv(env, false, EMPTY_WORLD, events);
    MoveIsAncestor(env, Run(env, EMPTY_WORLD, events), i);
  }

  lemma {:induction false} MoveIsAncestor(env: Env, v: World, i: nat)
    requires EnvOk(env) && Sound(env, v) && i < |v.moves|
    ensures v.moves[i].target in v.disk.snapshots
    ensures v.disk.snapshots[v.moves[i].target].parent == (if i == 0 then "" else v.moves[i - 1].target)
    ensures InAncestry(env, v.disk, v.disk.active, v.moves[i].target, []) == Found
  {
    assert MoveOk(v, i);
    MembershipFrom(env, v, |v.moves|, v.moves[i].target, []);
  }
}
