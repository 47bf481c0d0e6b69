/** Repeated requests, reused operation ids, and reasons that are too long for the journal. */
module CatalogRetries {
  import opened Options
  import opened CatalogTypes
  import opened CatalogJournal
  import opened CatalogInvariant
  import opened CatalogSteps
  import opened CatalogTheorems
  import opened CatalogHolds

  // ---------------------------------------------------------------- repeated restores

  lemma {:induction false} SameRequest(env: Env, r: RestoreRequest, q: RestoreRequest)
    requires EnvOk(env) && q.operationId == r.operationId
    ensures RequestDigest(env, r) == RequestDigest(env, q) <==> q == r
  {
  }

  /** A request whose id is in the journal performs recovery only and gets the recorded answer. */
  lemma {:induction false} KnownRestore(env: Env, v: World, q: RestoreRequest, now: string)
    requires EnvOk(env) && Inv(env, false, v) && q.operationId in v.disk.intents && ReasonOk(q.reason)
    ensures var p := PlanRestore(env, v.disk, q, now);
            var known := LoadOperation(Recovered(env, v.disk), q.operationId);
            && p.writes == PlanReconcile(env, v.disk, "").writes
            && known.LookupIs? && p.out == RecordedAnswer(env, q, known.record)
            && q.operationId in Recovered(env, v.disk).receipts
            && known.record == Recovered(env, v.disk).receipts[q.operationId]
  {
    RestoreShape(env, v.disk, q, now);
    ReconcileOk(env, false, v, "");
    var u := ApplyAll(v, PlanReconcile(env, v.disk, "").writes);
    NothingPending(env, u);
    KnownIsFound(env, u, q.operationId);
    assert IntentOk(env, v.disk.intents[q.operationId], q.operationId);
    assert q.operationId !in Pending(u.disk);
  }

  /** After a successful restore, however the catalog moves on: asking again under the same id
      changes nothing but what recovery would, and returns the generation that was installed;
      any different request under that id is a conflict. */
  lemma {:induction false} RepeatedRestore(env: Env, v: World, r: RestoreRequest, now: string, events: seq<Event>,
                                           q: RestoreRequest, later: string)
    requires EnvOk(env) && Inv(env, false, v) && ReasonFits(r) && Restores(env, v.disk, r, now) && AdmissibleRun(events)
    requires q.operationId == r.operationId && ReasonOk(q.reason)
    ensures var done := ApplyAll(v, PlanRestore(env, v.disk, r, now).writes);
            var u := Run(env, done, events);
            var p := PlanRestore(env, u.disk, q, later);
            && p.writes == PlanReconcile(env, u.disk, "").writes
            && p.out == if q == r then Answered(AnswerRecorded(Restored), done.disk.active) else Answered(AnswerConflict, "")
  {
    var ws := PlanRestore(env, v.disk, r, now).writes;
    CompletedRestore(env, v, r, now);
    RequestOk(env, false, v, Restore(r), now);
    assert PlanOf(env, v.disk, Restore(r), now).writes == ws;
    PlanKeepsInv(env, false, v, ws);
    var done := ApplyAll(v, ws);
    RecordedRestore(env, done, r, events, q, later);
  }

  /** Whatever has become of an earlier restore, asking again under its id changes nothing but what
      recovery would, and the answer is the truth: it is a conflict exactly when the request is another
      one, and otherwise it is that the restore took place, with the generation it installed, exactly
      when its own pointer move did. */
  lemma {:induction false} RepeatedAnswerIsTrue(env: Env, v: World, q: RestoreRequest, now: string)
    requires EnvOk(env) && Inv(env, true, v) && ReasonOk(q.reason)
    requires q.operationId in v.disk.intents && PointerKind(v.disk.intents[q.operationId].kind)
    ensures var intent := v.disk.intents[q.operationId];
            var p := PlanRestore(env, v.disk, q, now);
            && p.writes == PlanReconcile(env, v.disk, "").writes
            && p.out == (if intent.metadata.kind != RestoreMeta || intent.requestHash != RequestDigest(env, q)
                         then Answered(AnswerConflict, "")
                         else if Moved(v, q.operationId) then Answered(AnswerRecorded(Restored), intent.target)
                         else Answered(AnswerRecorded(NotApplied), ""))
  {
    KnownRestore(env, v, q, now);
    RecoveredReceipt(env, v, q.operationId);
    var d := Recovered(env, v.disk);
    AnswerOf(env, q, v.disk.intents[q.operationId], d.receipts[q.operationId]);
  }

  /** What the receipt of a publication or restore says after recovery: whether its pointer move took place. */
  lemma {:induction false} RecoveredReceipt(env: Env, v: World, id: OpId)
    requires EnvOk(env) && Inv(env, true, v) && id in v.disk.intents && PointerKind(v.disk.intents[id].kind)
    ensures var d := Recovered(env, v.disk);
            && id in d.receipts && ValidReceipt(v.disk.intents[id], d.receipts[id])
            && (d.receipts[id].status != NotApplied <==> Moved(v, id))
  {
    ReconcileOk(env, true, v, "");
    var u := ApplyAll(v, PlanReconcile(env, v.disk, "").writes);
    NothingPending(env, u);
    assert id !in Pending(u.disk);
    assert ReceiptOk(u.disk, id) && TrueAccount(u, id);
  }

  lemma {:induction false} AnswerOf(env: Env, q: RestoreRequest, intent: Record, receipt: Record)
    requires EnvOk(env) && ValidReceipt(intent, receipt)
    ensures RecordedAnswer(env, q, receipt)
            == if intent.metadata.kind != RestoreMeta || intent.requestHash != RequestDigest(env, q)
               then Answered(AnswerConflict, "")
               else if receipt.status != NotApplied then Answered(AnswerRecorded(Restored), intent.target)
               else Answered(AnswerRecorded(NotApplied), "")
  {
  }

  lemma {:induction false} RecordedRestore(env: Env, done: World, r: RestoreRequest, events: seq<Event>,
                                           q: RestoreRequest, later: string)
    requires EnvOk(env) && Inv(env, false, done) && AdmissibleRun(events) && RecordedAsRestored(env, done.disk, r)
    requires q.operationId == r.operationId && ReasonOk(q.reason)
    ensures var u := Run(env, done, events);
            var p := PlanRestore(env, u.disk, q, later);
            && p.writes == PlanReconcile(env, u.disk, "").writes
            && p.out == if q == r then Answered(AnswerRecorded(Restored), done.disk.active) else Answered(AnswerConflict, "")
  {
    RunGrows(env, done, events);
    var u := Run(env, done, events);
    assert ReceiptOk(done.disk, r.operationId);
    assert r.operationId in u.disk.intents && r.operationId in u.disk.receipts;
    KnownRestore(env, u, q, later);
    ReconcileOk(env, false, u, "");
    SameRequest(env, r, q);
  }

  /** No operation id ever moves the pointer twice. */
  lemma {:induction false} OneMovePerOperation(env: Env, events: seq<Event>, i: nat, j: nat)
    requires EnvOk(env) && AdmissibleRun(events) && FreshRun(env, EMPTY_WORLD, events)
    requires i < j < |Run(env, EMPTY_WORLD, events).moves|
    ensures Run(env, EMPTY_WORLD, events).moves[i].op != Run(env, EMPTY_WORLD, events).moves[j].op
  {
    EmptyIsSound(env);
    RunKeepsInv(env, true, EMPTY_WORLD, events);
    var v := Run(env, EMPTY_WORLD, events);
    assert MoveAnnounced(v, i) && MoveAnnounced(v, j);
  }

  // ---------------------------------------------------------------- a reused id, step by step

  /** A publication that is cut off after its intent, a recovery, and the same publication again. */
  function RetriedPublication(s: Snapshot, m: Metadata, t0: string, t1: string, t2: string): seq<Event> {
    [Event(Publish(s, "", m), t0, 2), Event(Reconcile, t1, 1), Event(Publish(s, "", m), t2, 2)]
  }

  lemma {:induction false} TwoMembers(ids: seq<OpId>)
    ensures |ids| > 0 ==> ids[0] in ids
    ensures |ids| > 1 ==> ids[1] in ids
  {
  }

  lemma {:induction false} ApplyOne(v: World, w: Write)
    ensures ApplyAll(v, [w]) == Apply(v, w)
  {
    assert [w][1..] == [];
  }

  lemma {:induction false} ApplyTwo(v: World, a: Write, b: Write)
    ensures ApplyAll(v, [a, b]) == Apply(Apply(v, a), b)
  {
    assert [a, b][1..] == [b];
    ApplyOne(Apply(v, a), b);
  }

  lemma {:induction false} EmptyRecovery(env: Env, d: Disk)
    requires EnvOk(env) && d.active == "" && d.intents == map[]
    ensures PlanReconcile(env, d, "") == Plan([], Reconciled)
  {
    var ids := env.listing({});
    assert Lists(ids, {});
    TwoMembers(ids);
    assert d.intents.Keys == {};
  }

  lemma {:induction false} SingleRecovery(env: Env, d: Disk, id: OpId)
    requires EnvOk(env) && d.active == "" && d.intents.Keys == {id}
    ensures PlanReconcile(env, d, "") == ReconcileIds(env, d, [], "", [id], false)
  {
    var ids := env.listing({id});
    assert Lists(ids, {id});
    TwoMembers(ids);
    assert id in ids;
    assert |ids| == 1;
    assert ids == [id];
  }

  ghost function FirstIntent(env: Env, s: Snapshot, m: Metadata, now: string): Record {
    PublishIntent(env, "", env.hash(s), m, CardChanges(env, [], s.entries), now)
  }

  lemma {:induction false} FirstPublication(env: Env, s: Snapshot, m: Metadata, now: string)
    requires EnvOk(env) && PublishInputOk(env, s, "", m) && m.kind != NoKind
    ensures var intent := FirstIntent(env, s, m, now);
            Step(env, EMPTY_WORLD, Event(Publish(s, "", m), now, 2))
            == World(EMPTY_DISK.(snapshots := map[env.hash(s) := s], intents := map[intent.operationId := intent]), [], {})
  {
    var h, intent := env.hash(s), FirstIntent(env, s, m, now);
    EmptyRecovery(env, EMPTY_DISK);
    var w0, w1 := PutSnapshot(h, s), PutIntent(intent);
    var p := PlanPublishBody(env, EMPTY_DISK, s, "", m, now);
    assert ApplyDiskAll(EMPTY_DISK, [w0]) == ApplyDisk(EMPTY_DISK, w0) by { assert [w0][1..] == []; }
    assert PlanPublish(env, EMPTY_DISK, s, "", m, "", now).writes == p.writes;
    assert p.writes[..2] == [w0, w1];
    ApplyTwo(EMPTY_WORLD, w0, w1);
  }

  lemma {:induction false} FirstRecovery(env: Env, v: World, intent: Record, now: string)
    requires EnvOk(env) && v.disk.active == "" && v.disk.receipts == map[]
    requires v.disk.intents == map[intent.operationId := intent] && ValidRecord(intent, intent.operationId)
    requires PointerKind(intent.kind) && intent.source == ""
    ensures Step(env, v, Event(Reconcile, now, 1))
            == v.(disk := v.disk.(receipts := map[intent.operationId := intent.(status := NotApplied, result := "")]))
  {
    var id := intent.operationId;
    var w := PutReceipt(intent.(status := NotApplied, result := ""));
    SingleRecovery(env, v.disk, id);
    assert ReconcileIds(env, v.disk, [], "", [id][1..], false) == Plan([], Reconciled);
    assert PlanReconcile(env, v.disk, "").writes == [w];
    assert [w][..1] == [w];
    ApplyOne(v, w);
  }

  lemma {:induction false} SecondPublication(env: Env, v: World, s: Snapshot, m: Metadata, earlier: string, now: string)
    requires EnvOk(env) && PublishInputOk(env, s, "", m) && m.kind != NoKind
    requires var intent := FirstIntent(env, s, m, earlier);
             && v.disk == EMPTY_DISK.(snapshots := map[env.hash(s) := s], intents := map[intent.operationId := intent],
                  receipts := map[intent.operationId := intent.(status := NotApplied, result := "")])
             && v.moves == []
    ensures var intent := FirstIntent(env, s, m, earlier);
            && PlanOf(env, v.disk, Publish(s, "", m), now).out == Failed(ReceiptExists)
            && Step(env, v, Event(Publish(s, "", m), now, 2))
               == v.(disk := v.disk.(active := env.hash(s)), moves := [Move(intent.operationId, "", env.hash(s))])
  {
    var intent := FirstIntent(env, s, m, earlier);
    var again := FirstIntent(env, s, m, now);
    var id := intent.operationId;
    SingleRecovery(env, v.disk, id);
    assert ReconcileIds(env, v.disk, [], "", [id][1..], false) == Plan([], Reconciled);
    assert PlanReconcile(env, v.disk, "") == Plan([], Reconciled);
    PublishBodyShape(env, v.disk, s, "", m, now);
    assert ApplyDiskAll(v.disk, []) == v.disk;
    assert PlanIntent(v.disk, again) == Plan([], Continue);
    assert PlanReceipt(v.disk, AppliedReceipt(again, env.hash(s))) == Plan([], Failed(ReceiptExists));
    var w := MovePointer(id, env.hash(s));
    assert PlanPublish(env, v.disk, s, "", m, "", now).writes == [w];
    assert [w][..1] == [w];
    ApplyOne(v, w);
  }

  /** A run in which the journal ends up wrong: the publication is active, and the journal says
      that it was not applied. */
  lemma {:induction false} RetryBreaksTheJournal(env: Env, s: Snapshot, m: Metadata, t0: string, t1: string, t2: string)
    requires EnvOk(env) && PublishInputOk(env, s, "", m) && m.kind != NoKind
    ensures var u := Run(env, EMPTY_WORLD, RetriedPublication(s, m, t0, t1, t2));
            var id := PublishId(env, "", env.hash(s), m);
            && AdmissibleRun(RetriedPublication(s, m, t0, t1, t2))
            && u.disk.active == env.hash(s) && u.moves == [Move(id, "", env.hash(s))]
            && id in u.disk.receipts && u.disk.receipts[id].status == NotApplied
            && !Truthful(u)
  {
    var events := RetriedPublication(s, m, t0, t1, t2);
    var intent := FirstIntent(env, s, m, t0);
    FirstPublication(env, s, m, t0);
    var v1 := Step(env, EMPTY_WORLD, events[0]);
    PublishIntentOk(env, s, "", m, CardChanges(env, [], s.entries), t0);
    FirstRecovery(env, v1, intent, t1);
    var v2 := Step(env, v1, events[1]);
    SecondPublication(env, v2, s, m, t0, t2);
    RunOfThree(env, EMPTY_WORLD, events[0], events[1], events[2]);
    Untruthful(Step(env, v2, events[2]), intent.operationId);
  }

  lemma {:induction false} RunOfThree(env: Env, v: World, a: Event, b: Event, c: Event)
    requires EnvOk(env)
    ensures Run(env, v, [a, b, c]) == Step(env, Step(env, Step(env, v, a), b), c)
  {
    assert [a, b, c][1..] == [b, c] && [b, c][1..] == [c] && [c][1..] == [];
    var v1 := Step(env, v, a);
    var v2 := Step(env, v1, b);
    assert Run(env, v2, [c]) == Step(env, v2, c);
    assert Run(env, v1, [b, c]) == Run(env, v2, [c]);
  }

  lemma {:induction false} Untruthful(v: World, id: OpId)
    requires |v.moves| == 1 && v.moves[0].op == id && id in v.disk.intents && PointerKind(v.disk.intents[id].kind)
    requires id in v.disk.receipts && v.disk.receipts[id].status == NotApplied
    ensures !Truthful(v)
  {
    assert v.moves[0].op == id;
    assert !TrueAccount(v, id);
  }

  // ---------------------------------------------------------------- reasons that are too long

  /** An announced operation, or its receipt, does not pass the journal's own validation. */
  predicate BadEntry(d: Disk, id: OpId)
    requires id in d.intents
  {
    || !ValidRecord(d.intents[id], id)
    || (id in d.receipts && !(ValidRecord(d.receipts[id], id) && ValidReceipt(d.intents[id], d.receipts[id])))
  }

  ghost predicate Poisoned(d: Disk) {
    exists id :: id in d.intents && BadEntry(d, id)
  }

  lemma {:induction false} PoisonedIds(env: Env, d: Disk, chain: seq<Hash>, ids: seq<OpId>, unclear: bool, bad: OpId)
    requires forall id :: id in ids ==> id in d.intents
    requires bad in ids && BadEntry(d, bad)
    ensures ReconcileIds(env, d, chain, "", ids, unclear).out.Failed?
    decreases |ids|
  {
    if ids[0] != bad {
      PoisonedIds(env, d, chain, ids[1..], unclear, bad);
      PoisonedIds(env, d, chain, ids[1..], true, bad);
    }
  }

  lemma {:induction false} PoisonedRecovery(env: Env, d: Disk)
    requires EnvOk(env) && Poisoned(d)
    ensures PlanReconcile(env, d, "").out.Failed?
  {
    var ids := env.listing(d.intents.Keys);
    assert Lists(ids, d.intents.Keys);
    var bad :| bad in d.intents && BadEntry(d, bad);
    if !LoadActive(env, d).ActiveBroken? && Walk(env, d, d.active, []).Some? {
      PoisonedIds(env, d, Walk(env, d, d.active, []).value, ids, false, bad);
    }
  }

  /** A receipt for an operation that has none yet. */
  predicate NewReceipt(d: Disk, w: Write) {
    w.PutReceipt? && w.receipt.operationId !in d.receipts
  }

  lemma {:induction false} ReconcileIdsWritesNew(env: Env, d: Disk, chain: seq<Hash>, skip: OpId, ids: seq<OpId>, unclear: bool)
    requires forall id :: id in ids ==> id in d.intents
    ensures forall i :: 0 <= i < |ReconcileIds(env, d, chain, skip, ids, unclear).writes| ==>
              NewReceipt(d, ReconcileIds(env, d, chain, skip, ids, unclear).writes[i])
    decreases |ids|
  {
    if ids != [] {
      ReconcileIdsWritesNew(env, d, chain, skip, ids[1..], unclear);
      ReconcileIdsWritesNew(env, d, chain, skip, ids[1..], true);
    }
  }

  lemma {:induction false} ReconcileWritesNew(env: Env, d: Disk, skip: OpId)
    requires EnvOk(env)
    ensures forall i :: 0 <= i < |PlanReconcile(env, d, skip).writes| ==> NewReceipt(d, PlanReconcile(env, d, skip).writes[i])
  {
    var ids := env.listing(d.intents.Keys);
    assert Lists(ids, d.intents.Keys);
    if Walk(env, d, d.active, []).Some? {
      ReconcileIdsWritesNew(env, d, Walk(env, d, d.active, []).value, skip, ids, false);
    }
  }

  /** Every request fails, and writes at most receipts for operations without one. */
  lemma {:induction false} PoisonedRequest(env: Env, d: Disk, q: Request, now: string)
    requires EnvOk(env) && Poisoned(d)
    ensures var p := PlanOf(env, d, q, now);
            p.out.Failed? && (forall i :: 0 <= i < |p.writes| ==> NewReceipt(d, p.writes[i]))
  {
    PoisonedRecovery(env, d);
    ReconcileWritesNew(env, d, "");
  }

  lemma {:induction false} OtherReceiptsStay(v: World, ws: seq<Write>, bad: OpId)
    requires forall i :: 0 <= i < |ws| ==> ws[i].PutReceipt? && ws[i].receipt.operationId != bad
    ensures var u := ApplyAll(v, ws);
            && u == v.(disk := v.disk.(receipts := u.disk.receipts))
            && (bad in u.disk.receipts <==> bad in v.disk.receipts)
            && (bad in v.disk.receipts ==> u.disk.receipts[bad] == v.disk.receipts[bad])
    decreases |ws|
  {
    if ws != [] {
      OtherReceiptsStay(Apply(v, ws[0]), ws[1..], bad);
    }
  }

  lemma {:induction false} StaysPoisoned(v: World, ws: seq<Write>)
    requires Poisoned(v.disk) && forall i :: 0 <= i < |ws| ==> NewReceipt(v.disk, ws[i])
    ensures var u := ApplyAll(v, ws);
            u == v.(disk := v.disk.(receipts := u.disk.receipts)) && Poisoned(u.disk)
  {
    var bad :| bad in v.disk.intents && BadEntry(v.disk, bad);
    ReceiptsOnly(v, ws);
    var u := ApplyAll(v, ws);
    if bad in v.disk.receipts {
      OtherReceiptsStay(v, ws, bad);
    }
    assert BadEntry(u.disk, bad);
  }

  /** A poisoned catalog stays poisoned: whatever is requested, no generation is ever installed
      again and no policy ever changes. */
  lemma {:induction false} PoisonedForever(env: Env, v: World, events: seq<Event>)
    requires EnvOk(env) && Poisoned(v.disk)
    ensures var u := Run(env, v, events);
            && u == v.(disk := v.disk.(receipts := u.disk.receipts)) && Poisoned(u.disk)
    decreases |events|
  {
    if events != [] {
      var e := events[0];
      PoisonedRequest(env, v.disk, e.request, e.now);
      StaysPoisoned(v, Taken(PlanOf(env, v.disk, e.request, e.now), e.done));
      PoisonedForever(env, Step(env, v, e), events[1..]);
    }
  }

  /** The restore `r` passes all its checks on a recovered catalog. */
  ghost predicate GoesAhead(env: Env, d: Disk, r: RestoreRequest, now: string)
    requires EnvOk(env)
  {
    && r.operationId != "" && ReasonOk(r.reason) && PlanReconcile(env, d, "").out == Reconciled
    && PassesChecks(env, Recovered(env, d), r, now)
  }

  predicate Announces(w: Write, id: OpId) { w.PutIntent? && w.intent.operationId == id }

  /** A restore whose reason does not fit announces itself and sets the hold, and no more. */
  lemma {:induction false} LongReasonBody(env: Env, v: World, r: RestoreRequest, k: RestoreWork, now: string)
    requires EnvOk(env) && r.operationId !in v.disk.intents && !ReasonFits(r)
    ensures var ws := PlanRestoreBody(env, v.disk, r, k, now).writes;
            && ws != [] && ws[0] == PutIntent(RestoreIntent(env, v.disk.active, r, k, now))
            && (forall i :: 1 <= i < |ws| ==> !Announces(ws[i], r.operationId))
  {
    RestoreBodyShape(env, v.disk, r, k, now);
    HoldShape(env, v, r, k, now);
    var announce := RestoreIntent(env, v.disk.active, r, k, now);
    var d := Apply(v, PutIntent(announce)).disk;
    var held := PlanHold(env, v.disk, r, k, now);
    assert PlanRestoreBody(env, v.disk, r, k, now).writes == held.writes;
    PolicyAnnouncesItself(d, HoldIntent(env, v.disk.active, r, k, now), HeldPolicy(env, r, k, now), r.operationId);
  }

  lemma {:induction false} PolicyAnnouncesItself(d: Disk, intent: Record, p: Policy, id: OpId)
    requires id in d.intents
    ensures forall i :: 0 <= i < |PolicyWrites(d, intent, p)| ==> !Announces(PolicyWrites(d, intent, p)[i], id)
  {
  }

  lemma {:induction false} IntentStays(v: World, ws: seq<Write>, id: OpId)
    requires id in v.disk.intents && forall i :: 0 <= i < |ws| ==> !Announces(ws[i], id)
    ensures id in ApplyAll(v, ws).disk.intents && ApplyAll(v, ws).disk.intents[id] == v.disk.intents[id]
    decreases |ws|
  {
    if ws != [] {
      IntentStays(Apply(v, ws[0]), ws[1..], id);
    }
  }

  lemma {:induction false} AnnouncedStays(v: World, rec: seq<Write>, body: seq<Write>, intent: Record, n: nat)
    requires body != [] && body[0] == PutIntent(intent) && |rec| < n <= |rec + body|
    requires forall i :: 1 <= i < |body| ==> !Announces(body[i], intent.operationId)
    ensures var u := ApplyAll(v, (rec + body)[..n]);
            intent.operationId in u.disk.intents && u.disk.intents[intent.operationId] == intent
  {
    var tail := body[1..n - |rec|];
    assert (rec + body)[..n] == rec + ([body[0]] + tail);
    ApplyAllConcat(v, rec, [body[0]] + tail);
    ApplyAllConcat(ApplyAll(v, rec), [body[0]], tail);
    ApplyOne(ApplyAll(v, rec), body[0]);
    IntentStays(Apply(ApplyAll(v, rec), body[0]), tail, intent.operationId);
  }

  /** The first own write of a restore is its announcement. */
  lemma {:induction false} LongReasonPlan(env: Env, v: World, r: RestoreRequest, now: string) returns (body: seq<Write>)
    requires EnvOk(env) && Inv(env, false, v) && GoesAhead(env, v.disk, r, now) && !ReasonFits(r)
    ensures PlanRestore(env, v.disk, r, now).writes == PlanReconcile(env, v.disk, "").writes + body
    ensures LongReasonAnnounced(env, r, body)
  {
    ReconcileOk(env, false, v, "");
    RestoreShape(env, v.disk, r, now);
    var u := ApplyAll(v, PlanReconcile(env, v.disk, "").writes);
    RestoreReady(env, u, r, now);
    var k := CheckRestore(env, u.disk, r, now).work;
    LongReasonBody(env, u, r, k, now);
    body := PlanRestoreBody(env, u.disk, r, k, now).writes;
  }

  /** The write list starts with the announcement of `r`, and announces nothing else under its id. */
  ghost predicate LongReasonAnnounced(env: Env, r: RestoreRequest, body: seq<Write>) {
    && body != [] && body[0].PutIntent? && body[0].intent.operationId == r.operationId
    && body[0].intent.metadata == RestoreMetadata(env, r)
    && (forall i :: 1 <= i < |body| ==> !Announces(body[i], r.operationId))
  }

  lemma {:induction false} BadRecordPoisons(d: Disk, id: OpId)
    requires id in d.intents && !ValidMetadata(d.intents[id].metadata)
    ensures Poisoned(d)
  {
    assert BadEntry(d, id);
  }

  /** Once its announcement is on disk, a restore whose reason is too long has poisoned the
      catalog, wherever it stops. */
  lemma {:induction false} LongReasonPoisons(env: Env, v: World, r: RestoreRequest, now: string, done: nat)
    requires EnvOk(env) && Inv(env, false, v) && GoesAhead(env, v.disk, r, now)
    requires !ReasonFits(r) && done > |PlanReconcile(env, v.disk, "").writes|
    ensures Poisoned(Step(env, v, Event(Restore(r), now, done)).disk)
  {
    var body := LongReasonPlan(env, v, r, now);
    var n := CutRestore(env, v, r, now, done);
    PoisonedAfter(env, v, PlanReconcile(env, v.disk, "").writes, body, r, n);
  }

  lemma {:induction false} CutRestore(env: Env, v: World, r: RestoreRequest, now: string, done: nat) returns (n: nat)
    requires EnvOk(env)
    ensures var ws := PlanRestore(env, v.disk, r, now).writes;
            && n == (if done <= |ws| then done else |ws|)
            && Step(env, v, Event(Restore(r), now, done)) == ApplyAll(v, ws[..n])
  {
    var p := PlanRestore(env, v.disk, r, now);
    n := if done <= |p.writes| then done else |p.writes|;
    assert PlanOf(env, v.disk, Restore(r), now) == p && Taken(p, done) == p.writes[..n];
  }

  lemma {:induction false} PoisonedAfter(env: Env, v: World, rec: seq<Write>, body: seq<Write>, r: RestoreRequest, n: nat)
    requires LongReasonAnnounced(env, r, body) && |rec| < n <= |rec + body| && !ReasonFits(r)
    ensures Poisoned(ApplyAll(v, (rec + body)[..n]).disk)
  {
    AnnouncedStays(v, rec, body, body[0].intent, n);
    BadRecordPoisons(ApplyAll(v, (rec + body)[..n]).disk, r.operationId);
  }

  lemma {:induction false} SoundIsNotPoisoned(env: Env, v: World)
    requires Sound(env, v)
    ensures !Poisoned(v.disk)
  {
    forall id | id in v.disk.intents
      ensures !BadEntry(v.disk, id)
    {
      assert IntentOk(env, v.disk.intents[id], id);
      assert id in v.disk.receipts ==> ReceiptOk(v.disk, id);
    }
  }

  /** The catalog survives a restore that goes ahead exactly when its reason fits the journal.
      The request check lets reasons of up to 512 bytes through; the journal takes 256. */
  lemma {:induction false} RestoreIsSurvivedIffReasonFits(env: Env, v: World, r: RestoreRequest, now: string)
    requires EnvOk(env) && Inv(env, false, v) && GoesAhead(env, v.disk, r, now)
    ensures var u := ApplyAll(v, PlanRestore(env, v.disk, r, now).writes);
            && (PlanReconcile(env, u.disk, "").out == Reconciled <==> ReasonFits(r))
            && (ReasonFits(r) <==> !Poisoned(u.disk))
  {
    var ws := PlanRestore(env, v.disk, r, now).writes;
    var u := ApplyAll(v, ws);
    if ReasonFits(r) {
      RequestOk(env, false, v, Restore(r), now);
      assert PlanOf(env, v.disk, Restore(r), now).writes == ws;
      PlanKeepsInv(env, false, v, ws);
      ReconcileOk(env, false, u, "");
      SoundIsNotPoisoned(env, u);
    } else {
      var body := LongReasonPlan(env, v, r, now);
      LongReasonPoisons(env, v, r, now, |ws|);
      assert Taken(PlanRestore(env, v.disk, r, now), |ws|) == ws;
      PoisonedRecovery(env, u.disk);
    }
  }

  // ---------------------------------------------------------------- when a publication or a restore succeeds

  /** A publication from the active generation whose id has no receipt succeeds exactly when its id is
      new or was announced for the same operation. */
  lemma {:induction false} PublishSucceedsIff(env: Env, v: World, s: Snapshot, expected: Hash, m: Metadata, now: string)
    requires EnvOk(env) && Inv(env, false, v) && PublishInputOk(env, s, expected, m) && v.disk.active == expected
    requires PublishId(env, expected, env.hash(s), m) !in v.disk.receipts
    ensures var id := PublishId(env, expected, env.hash(s), m);
            var intent := PublishIntent(env, expected, env.hash(s), m, CardChanges(env, ActiveEntries(env, v.disk), s.entries), now);
            PlanPublishBody(env, v.disk, s, expected, m, now).out.Published?
            <==> id !in v.disk.intents || SameIntent(v.disk.intents[id], intent)
  {
    var h := env.hash(s);
    SnapshotPlanOk(env, false, v, s);
    PublishBodyShape(env, v.disk, s, expected, m, now);
    var d1 := ApplyDiskAll(v.disk, PlanSnapshot(v.disk, h, s).writes);
    if expected != "" {
      ActiveIsStored(env, v);
      assert Load(env, d1, expected) == Load(env, v.disk, expected);
    }
    var changes := CardChanges(env, ActiveEntries(env, v.disk), s.entries);
    assert SnapshotChanges(env, d1, expected, s) == Some(changes);
    PublishIntentOk(env, s, expected, m, changes, now);
  }

  /** The publication's list of changed cards is the one that the restore has announced. */
  ghost predicate AnnouncesItsChange(env: Env, d: Disk, k: RestoreWork) {
    CardChanges(env, ActiveEntries(env, d), k.next.entries)
      == {CardChange(k.current.projectId, env.entryHash(k.current), env.entryHash(k.restored))}
  }

  /** The hold's own id is not the restore's, and new or recorded for this very hold. */
  ghost predicate HoldTakes(env: Env, d: Disk, r: RestoreRequest, k: RestoreWork, now: string) {
    var intent := HoldIntent(env, d.active, r, k, now);
    var id := intent.operationId;
    && id != r.operationId
    && (id in d.intents ==>
          SameIntent(d.intents[id], intent) && id in d.receipts && d.receipts[id] == AppliedReceipt(intent, d.active))
  }

  lemma {:induction false} HoldSucceedsIff(env: Env, v: World, r: RestoreRequest, k: RestoreWork, now: string)
    requires EnvOk(env) && Inv(env, false, v) && Pending(v.disk) == {} && r.operationId !in v.disk.intents
    ensures !PlanHold(env, v.disk, r, k, now).out.Failed? <==> HoldTakes(env, v.disk, r, k, now)
  {
    HoldShape(env, v, r, k, now);
    var id := HoldIntent(env, v.disk.active, r, k, now).operationId;
    NoReceiptWithoutIntent(env, v, id);
    assert id in v.disk.intents ==> id !in Pending(v.disk);
  }

  /** The restore `r`, on a catalog without pending operations, goes on to announce its publication
      under the id that it has announced itself. */
  lemma {:induction false} AnnouncedTwice(env: Env, active: Hash, r: RestoreRequest, k: RestoreWork, changes: set<CardChange>, now: string)
    requires k.target == env.hash(k.next) && k.next.parent == active && r.operationId != ""
    ensures var intent := PublishIntent(env, active, k.target, RestoreMetadata(env, r), changes, now);
            && intent.operationId == r.operationId
            && (SameIntent(RestoreIntent(env, active, r, k, now), intent)
                <==> changes == {CardChange(r.projectId, env.entryHash(k.current), env.entryHash(k.restored))})
  {
  }

  /** What the hold leaves of the journal: the restore's own announcement. */
  lemma {:induction false} HeldJournal(env: Env, v: World, r: RestoreRequest, k: RestoreWork, now: string)
    requires r.operationId !in v.disk.intents && !PlanHold(env, v.disk, r, k, now).out.Failed?
    ensures var u := ApplyAll(v, PlanHold(env, v.disk, r, k, now).writes);
            r.operationId in u.disk.intents && u.disk.intents[r.operationId] == RestoreIntent(env, v.disk.active, r, k, now)
  {
    HoldShape(env, v, r, k, now);
    var w := PutIntent(RestoreIntent(env, v.disk.active, r, k, now));
    var d1 := Apply(v, w).disk;
    var rest := PolicyWrites(d1, HoldIntent(env, v.disk.active, r, k, now), HeldPolicy(env, r, k, now));
    PolicyAnnouncesItself(d1, HoldIntent(env, v.disk.active, r, k, now), HeldPolicy(env, r, k, now), r.operationId);
    ApplyAllConcat(v, [w], rest);
    ApplyOne(v, w);
    IntentStays(Apply(v, w), rest, r.operationId);
  }

  lemma {:induction false} RestoreExtendsIff(env: Env, u: World, r: RestoreRequest, k: RestoreWork, now: string)
    requires EnvOk(env) && Inv(env, false, u) && r.operationId != "" && r.operationId !in u.disk.receipts
    requires r.operationId in u.disk.intents && u.disk.intents[r.operationId] == RestoreIntent(env, u.disk.active, r, k, now)
    requires k.target == env.hash(k.next) && PublishInputOk(env, k.next, u.disk.active, RestoreMetadata(env, r))
    requires k.current.projectId == r.projectId
    ensures PlanPublishBody(env, u.disk, k.next, u.disk.active, RestoreMetadata(env, r), now).out.Published?
            <==> AnnouncesItsChange(env, u.disk, k)
  {
    PublishSucceedsIff(env, u, k.next, u.disk.active, RestoreMetadata(env, r), now);
    AnnouncedTwice(env, u.disk.active, r, k, CardChanges(env, ActiveEntries(env, u.disk), k.next.entries), now);
  }

  /** The publication of a restore whose hold is on disk. */
  lemma {:induction false} RestorePublishesIff(env: Env, u: World, r: RestoreRequest, k: RestoreWork, now: string)
    requires EnvOk(env) && Inv(env, false, u) && Pending(u.disk) == {r.operationId} && r.operationId != ""
    requires r.operationId in u.disk.intents && u.disk.intents[r.operationId] == RestoreIntent(env, u.disk.active, r, k, now)
    requires k.target == env.hash(k.next) && k.next.parent == u.disk.active && Valid(env, k.next) && ReasonFits(r) && ReasonOk(r.reason)
    requires k.current.projectId == r.projectId
    ensures PlanPublish(env, u.disk, k.next, u.disk.active, RestoreMetadata(env, r), r.operationId, now).out.Published?
            <==> AllEligible(k.next.entries) && AnnouncesItsChange(env, u.disk, k)
  {
    var m := RestoreMetadata(env, r);
    PublishShape(env, u.disk, k.next, u.disk.active, m, r.operationId, now);
    ReconcileOk(env, false, u, r.operationId);
    var u1 := ApplyAll(u, PlanReconcile(env, u.disk, r.operationId).writes);
    if u.disk.active != "" {
      ActiveIsStored(env, u);
    }
    if AllEligible(k.next.entries) {
      RestoreExtendsIff(env, u1, r, k, now);
      SameEntries(env, u, u1);
    }
  }

  lemma {:induction false} SameEntries(env: Env, v: World, u: World)
    requires u.disk.active == v.disk.active && u.disk.snapshots == v.disk.snapshots
    ensures ActiveEntries(env, u.disk) == ActiveEntries(env, v.disk)
  {
  }

  /** A restore that goes ahead ends in a restored description exactly when its reason fits the journal,
      its hold can be recorded, all entries may be published, and the publication changes just the card
      that the restore has announced. */
  lemma {:induction false} RestoreEndsIff(env: Env, v: World, r: RestoreRequest, now: string)
    requires EnvOk(env) && Inv(env, false, v) && GoesAhead(env, v.disk, r, now)
    ensures var d := Recovered(env, v.disk);
            var k := CheckRestore(env, d, r, now).work;
            Restores(env, v.disk, r, now)
            <==> ReasonFits(r) && HoldTakes(env, d, r, k, now) && AllEligible(k.next.entries) && AnnouncesItsChange(env, d, k)
  {
    ReconcileOk(env, false, v, "");
    var v1 := ApplyAll(v, PlanReconcile(env, v.disk, "").writes);
    RestoreShape(env, v.disk, r, now);
    RestoreReady(env, v1, r, now);
    ReadyWork(env, v1, r, now);
    var k := CheckRestore(env, v1.disk, r, now).work;
    RestoreBodyEndsIff(env, v1, r, k, now);
  }

  lemma {:induction false} RestoreBodyEndsIff(env: Env, v: World, r: RestoreRequest, k: RestoreWork, now: string)
    requires EnvOk(env) && Inv(env, false, v) && Pending(v.disk) == {} && r.operationId !in v.disk.intents
    requires r.operationId !in v.disk.receipts && r.operationId != "" && ReasonOk(r.reason)
    requires CheckRestore(env, v.disk, r, now) == RestoreGo(k)
    ensures PlanRestoreBody(env, v.disk, r, k, now).out.Answered?
            <==> ReasonFits(r) && HoldTakes(env, v.disk, r, k, now) && AllEligible(k.next.entries) && AnnouncesItsChange(env, v.disk, k)
    ensures PlanRestoreBody(env, v.disk, r, k, now).out.Answered? ==> PlanRestoreBody(env, v.disk, r, k, now).out.answer == AnswerRestored
  {
    RestoreBodyShape(env, v.disk, r, k, now);
    HoldSucceedsIff(env, v, r, k, now);
    ReadyWork(env, v, r, now);
    var held := PlanHold(env, v.disk, r, k, now);
    if !held.out.Failed? {
      var u := ApplyAll(v, held.writes);
      ApplyAllDisk(v, held.writes);
      HoldEffect(env, v, r, k, now);
      PublishIsNoAnswer(env, u.disk, k.next, v.disk.active, RestoreMetadata(env, r), r.operationId, now);
      if ReasonFits(r) {
        HoldOk(env, false, v, r, now);
        PlanKeepsInv(env, false, v, held.writes);
        HeldJournal(env, v, r, k, now);
        RestorePublishesIff(env, u, r, k, now);
        SameEntries(env, v, u);
      }
    }
  }

  /** However it ends, a restore whose hold can be recorded leaves the project held. */
  lemma {:induction false} RestoreLeavesHold(env: Env, v: World, r: RestoreRequest, now: string)
    requires EnvOk(env) && Inv(env, false, v) && GoesAhead(env, v.disk, r, now)
    ensures var d := Recovered(env, v.disk);
            HoldTakes(env, d, r, CheckRestore(env, d, r, now).work, now) ==>
              Held(ApplyAll(v, PlanRestore(env, v.disk, r, now).writes).disk, r.projectId)
  {
    ReconcileOk(env, false, v, "");
    var rec := PlanReconcile(env, v.disk, "").writes;
    var v1 := ApplyAll(v, rec);
    RestoreShape(env, v.disk, r, now);
    RestoreReady(env, v1, r, now);
    var k := CheckRestore(env, v1.disk, r, now).work;
    HoldSucceedsIff(env, v1, r, k, now);
    var body := PlanRestoreBody(env, v1.disk, r, k, now).writes;
    ApplyAllConcat(v, rec, body);
    if HoldTakes(env, v1.disk, r, k, now) {
      BodyLeavesHold(env, v1, r, k, now);
    }
  }

  lemma {:induction false} BodyLeavesHold(env: Env, v: World, r: RestoreRequest, k: RestoreWork, now: string)
    requires EnvOk(env) && !PlanHold(env, v.disk, r, k, now).out.Failed? && k.policy.projectId == r.projectId
    requires r.operationId !in v.disk.intents && r.operationId !in v.disk.receipts && Pending(v.disk) == {}
    ensures Held(ApplyAll(v, PlanRestoreBody(env, v.disk, r, k, now).writes).disk, r.projectId)
  {
    var held, ws := PlanHold(env, v.disk, r, k, now).writes, PlanRestoreBody(env, v.disk, r, k, now).writes;
    RestoreTail(env, v, r, k, now);
    HoldEffect(env, v, r, k, now);
    ApplyAllConcat(v, held, ws[|held|..]);
    HoldKept(ApplyAll(v, held), ws[|held|..], r.projectId);
  }

  /** When no project occurs twice, the announced card is the changed one exactly when the description
      does change. So restoring the description that a project already has sets the hold and fails. */
  lemma {:induction false} ChangeIsAnnouncedIff(env: Env, v: World, r: RestoreRequest, now: string)
    requires EnvOk(env) && Inv(env, false, v) && CheckRestore(env, v.disk, r, now).RestoreGo?
    requires UniqueProjects(ActiveEntries(env, v.disk))
    ensures var k := CheckRestore(env, v.disk, r, now).work;
            AnnouncesItsChange(env, v.disk, k) <==> k.restored.desc != k.current.desc
  {
    ReadyWork(env, v, r, now);
    ActiveIsStored(env, v);
    var k := CheckRestore(env, v.disk, r, now).work;
    OneEntryChanges(env, ActiveEntries(env, v.disk), k.index, k.restored);
  }

  lemma {:induction false} OneEntryChanges(env: Env, entries: seq<Entry>, i: nat, e: Entry)
    requires EnvOk(env) && UniqueProjects(entries) && i < |entries| && entries[i].projectId == e.projectId != ""
    ensures CardChanges(env, entries, entries[i := e])
            == if e == entries[i] then {} else {CardChange(e.projectId, env.entryHash(entries[i]), env.entryHash(e))}
  {
    var next := entries[i := e];
    forall j | 0 <= j < |entries| && entries[j].projectId != ""
      ensures CardChangeOf(env, entries, next[j])
              == if env.entryHash(next[j]) == env.entryHash(entries[j]) then None
                 else Some(CardChange(next[j].projectId, env.entryHash(entries[j]), env.entryHash(next[j])))
      ensures EntryIndex(next, entries[j].projectId) >= 0
    {
      LastIsOnly(entries, entries[j].projectId, j);
      assert next[j].projectId == entries[j].projectId;
    }
    assert next[i] == e;
  }

  // ---------------------------------------------------------------- the hold of a restore, under a used id

  /** The hold's id belongs to the same hold, announced before and recorded as not applied. */
  ghost predicate HoldWasGivenUp(env: Env, d: Disk, r: RestoreRequest, k: RestoreWork, now: string) {
    var intent := HoldIntent(env, d.active, r, k, now);
    var id := intent.operationId;
    && id in d.intents && SameIntent(d.intents[id], intent)
    && id in d.receipts && d.receipts[id].status == NotApplied
  }

  /** A restore that passes its checks leaves a truthful journal exactly unless its hold was announced
      before and recorded as not applied: then the hold is set, and the journal says that it is not. */
  lemma {:induction false} RestoreStaysTruthfulIff(env: Env, v: World, r: RestoreRequest, now: string)
    requires EnvOk(env) && Inv(env, true, v) && GoesAhead(env, v.disk, r, now) && ReasonFits(r)
    ensures var d := Recovered(env, v.disk);
            Truthful(ApplyAll(v, PlanRestore(env, v.disk, r, now).writes))
            <==> !HoldWasGivenUp(env, d, r, CheckRestore(env, d, r, now).work, now)
  {
    ReconcileOk(env, true, v, "");
    var rec := PlanReconcile(env, v.disk, "").writes;
    var v1 := ApplyAll(v, rec);
    RestoreShape(env, v.disk, r, now);
    RestoreReady(env, v1, r, now);
    var k := CheckRestore(env, v1.disk, r, now).work;
    ApplyAllConcat(v, rec, PlanRestoreBody(env, v1.disk, r, k, now).writes);
    BodyStaysTruthfulIff(env, v1, r, k, now);
  }

  lemma {:induction false} BodyStaysTruthfulIff(env: Env, v: World, r: RestoreRequest, k: RestoreWork, now: string)
    requires EnvOk(env) && Inv(env, true, v) && Pending(v.disk) == {} && r.operationId !in v.disk.intents
    requires r.operationId !in v.disk.receipts && r.operationId != "" && ReasonOk(r.reason) && ReasonFits(r)
    requires CheckRestore(env, v.disk, r, now) == RestoreGo(k)
    ensures Truthful(ApplyAll(v, PlanRestoreBody(env, v.disk, r, k, now).writes)) <==> !HoldWasGivenUp(env, v.disk, r, k, now)
  {
    var id := HoldIntent(env, v.disk.active, r, k, now).operationId;
    if id !in v.disk.receipts {
      RestoreBodyOk(env, true, v, r, now);
      PlanKeepsInv(env, true, v, PlanRestoreBody(env, v.disk, r, k, now).writes);
    } else {
      NoReceiptWithoutIntent(env, v, id);
      UsedHold(env, v, r, k, now);
    }
  }

  /** The announcement of a restore whose hold has a receipt, and the hold itself. */
  lemma {:induction false} UsedHoldWrites(env: Env, v: World, r: RestoreRequest, k: RestoreWork, now: string) returns (u: World)
    requires EnvOk(env) && r.operationId !in v.disk.intents && r.operationId !in v.disk.receipts
    requires HoldIntent(env, v.disk.active, r, k, now).operationId in v.disk.intents
    requires HoldIntent(env, v.disk.active, r, k, now).operationId in v.disk.receipts
    ensures u == Apply(v, PutIntent(RestoreIntent(env, v.disk.active, r, k, now)))
    ensures var intent := HoldIntent(env, v.disk.active, r, k, now);
            var held := PlanHold(env, v.disk, r, k, now);
            && (held.out.Failed? <==>
                  !SameIntent(v.disk.intents[intent.operationId], intent)
                  || v.disk.receipts[intent.operationId] != AppliedReceipt(intent, v.disk.active))
            && ApplyAll(v, held.writes) == if SameIntent(v.disk.intents[intent.operationId], intent)
                                           then Apply(u, PutPolicy(intent.operationId, HeldPolicy(env, r, k, now))) else u
  {
    var w := PutIntent(RestoreIntent(env, v.disk.active, r, k, now));
    var intent := HoldIntent(env, v.disk.active, r, k, now);
    u := Apply(v, w);
    HoldShape(env, v, r, k, now);
    ApplyOne(v, w);
    if SameIntent(v.disk.intents[intent.operationId], intent) {
      ApplyAllConcat(v, [w], PolicyWrites(u.disk, intent, HeldPolicy(env, r, k, now)));
      WritesAgain(u, intent, HeldPolicy(env, r, k, now));
    }
  }

  lemma {:induction false} UsedHoldTruth(env: Env, v: World, r: RestoreRequest, k: RestoreWork, now: string)
    requires EnvOk(env) && Inv(env, true, v) && Pending(v.disk) == {} && r.operationId !in v.disk.intents
    requires r.operationId !in v.disk.receipts && r.operationId != "" && ReasonOk(r.reason) && ReasonFits(r)
    requires CheckRestore(env, v.disk, r, now) == RestoreGo(k)
    requires HoldIntent(env, v.disk.active, r, k, now).operationId in v.disk.intents
    requires HoldIntent(env, v.disk.active, r, k, now).operationId in v.disk.receipts
    ensures Truthful(ApplyAll(v, PlanHold(env, v.disk, r, k, now).writes)) <==> !HoldWasGivenUp(env, v.disk, r, k, now)
    ensures HoldWasGivenUp(env, v.disk, r, k, now) ==> PlanHold(env, v.disk, r, k, now).out.Failed?
  {
    AnnounceRestoreOk(env, true, v, r, now);
    OnlyPending(v, RestoreIntent(env, v.disk.active, r, k, now), HoldIntent(env, v.disk.active, r, k, now).operationId);
    UsedHoldWritten(env, v, r, k, now);
  }

  lemma {:induction false} UsedHoldWritten(env: Env, v: World, r: RestoreRequest, k: RestoreWork, now: string)
    requires EnvOk(env) && r.operationId !in v.disk.intents && r.operationId !in v.disk.receipts
    requires HoldIntent(env, v.disk.active, r, k, now).operationId in v.disk.intents
    requires HoldIntent(env, v.disk.active, r, k, now).operationId in v.disk.receipts
    requires var u := Apply(v, PutIntent(RestoreIntent(env, v.disk.active, r, k, now)));
             Truthful(u) && OthersArePointers(u.disk, HoldIntent(env, v.disk.active, r, k, now).operationId)
    ensures Truthful(ApplyAll(v, PlanHold(env, v.disk, r, k, now).writes)) <==> !HoldWasGivenUp(env, v.disk, r, k, now)
    ensures HoldWasGivenUp(env, v.disk, r, k, now) ==> PlanHold(env, v.disk, r, k, now).out.Failed?
  {
    var intent := HoldIntent(env, v.disk.active, r, k, now);
    var u := UsedHoldWrites(env, v, r, k, now);
    if SameIntent(v.disk.intents[intent.operationId], intent) {
      SavedAgain(u, intent.operationId, HeldPolicy(env, r, k, now));
    }
  }

  lemma {:induction false} UsedHold(env: Env, v: World, r: RestoreRequest, k: RestoreWork, now: string)
    requires EnvOk(env) && Inv(env, true, v) && Pending(v.disk) == {} && r.operationId !in v.disk.intents
    requires r.operationId !in v.disk.receipts && r.operationId != "" && ReasonOk(r.reason) && ReasonFits(r)
    requires CheckRestore(env, v.disk, r, now) == RestoreGo(k)
    requires HoldIntent(env, v.disk.active, r, k, now).operationId in v.disk.intents
    requires HoldIntent(env, v.disk.active, r, k, now).operationId in v.disk.receipts
    ensures Truthful(ApplyAll(v, PlanRestoreBody(env, v.disk, r, k, now).writes)) <==> !HoldWasGivenUp(env, v.disk, r, k, now)
  {
    var held := PlanHold(env, v.disk, r, k, now);
    UsedHoldTruth(env, v, r, k, now);
    if held.out.Failed? {
      FailedHold(env, v, r, k, now);
      assert held.writes + [] == held.writes;
    } else {
      PublishedUnderUsedHold(env, v, r, k, now);
    }
  }

  /** A hold that can be recorded again disturbs nothing that follows. */
  lemma {:induction false} PublishedUnderUsedHold(env: Env, v: World, r: RestoreRequest, k: RestoreWork, now: string)
    requires EnvOk(env) && Inv(env, false, v) && Pending(v.disk) == {} && r.operationId !in v.disk.intents
    requires r.operationId !in v.disk.receipts && r.operationId != "" && ReasonOk(r.reason) && ReasonFits(r)
    requires CheckRestore(env, v.disk, r, now) == RestoreGo(k) && !PlanHold(env, v.disk, r, k, now).out.Failed?
    requires Truthful(ApplyAll(v, PlanHold(env, v.disk, r, k, now).writes))
    ensures Truthful(ApplyAll(v, PlanRestoreBody(env, v.disk, r, k, now).writes))
  {
    var u := HeldIsSound(env, v, r, k, now);
    RestoreBodyShape(env, v.disk, r, k, now);
    var rest := RestOfRestore(env, u, r, k, now);
    ApplyAllConcat(v, PlanHold(env, v.disk, r, k, now).writes, rest);
  }

  lemma {:induction false} HeldIsSound(env: Env, v: World, r: RestoreRequest, k: RestoreWork, now: string) returns (u: World)
    requires EnvOk(env) && Inv(env, false, v) && Pending(v.disk) == {} && r.operationId !in v.disk.intents
    requires r.operationId !in v.disk.receipts && r.operationId != "" && ReasonOk(r.reason) && ReasonFits(r)
    requires CheckRestore(env, v.disk, r, now) == RestoreGo(k) && !PlanHold(env, v.disk, r, k, now).out.Failed?
    ensures var ws := PlanHold(env, v.disk, r, k, now).writes;
            u == ApplyAll(v, ws) && u.disk == ApplyDiskAll(v.disk, ws)
    ensures Inv(env, false, u) && Pending(u.disk) == {r.operationId} && u.disk.active == v.disk.active && k.policy.projectId != ""
  {
    var ws := PlanHold(env, v.disk, r, k, now).writes;
    u := ApplyAll(v, ws);
    ApplyAllDisk(v, ws);
    HoldOk(env, false, v, r, now);
    PlanKeepsInv(env, false, v, ws);
    HoldEffect(env, v, r, k, now);
    ReadyWork(env, v, r, now);
  }

  /** What a restore writes behind a hold that left the journal truthful. */
  lemma {:induction false} RestOfRestore(env: Env, u: World, r: RestoreRequest, k: RestoreWork, now: string) returns (rest: seq<Write>)
    requires EnvOk(env) && Inv(env, true, u) && Pending(u.disk) == {r.operationId} && r.operationId != "" && k.policy.projectId != ""
    ensures var published := PlanPublish(env, u.disk, k.next, u.disk.active, RestoreMetadata(env, r), r.operationId, now);
            var settled := PutPolicy("", HeldPolicy(env, r, k, now).(currentEntryHash := env.entryHash(k.restored)));
            rest == if published.out.Failed? then published.writes else published.writes + [settled]
    ensures Truthful(ApplyAll(u, rest))
  {
    var published := PlanPublish(env, u.disk, k.next, u.disk.active, RestoreMetadata(env, r), r.operationId, now);
    var settled := PutPolicy("", HeldPolicy(env, r, k, now).(currentEntryHash := env.entryHash(k.restored)));
    NoneOk(env, true, u);
    RestorePublishOk(env, true, u, u, [], r, k, now);
    rest := if published.out.Failed? then published.writes else published.writes + [settled];
    assert [] + published.writes == published.writes && [] + (published.writes + [settled]) == published.writes + [settled];
    PlanKeepsInv(env, true, u, rest);
  }
}
