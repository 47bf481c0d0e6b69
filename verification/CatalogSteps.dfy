/** Every operation performs only admissible writes, so the invariant holds wherever it stops. */
module CatalogSteps {
  import opened Options
  import opened CatalogTypes
  import opened CatalogJournal
  import opened CatalogInvariant

  /** The invariant: soundness, and when `t` is set also a truthful journal. */
  ghost predicate Inv(env: Env, t: bool, v: World) {
    Sound(env, v) && (t ==> Truthful(v))
  }

  ghost predicate Ok(env: Env, t: bool, v: World, w: Write) {
    Safe(env, v, w) && (t ==> Honest(v, w))
  }

  ghost function InvFn(env: Env, t: bool): World -> bool {
    (v: World) => Inv(env, t, v)
  }

  ghost function OkFn(env: Env, t: bool): (World, Write) -> bool {
    (v: World, w: Write) => Ok(env, t, v, w)
  }

  lemma {:induction false} InvIsKept(env: Env, t: bool)
    requires EnvOk(env)
    ensures Kept(InvFn(env, t), OkFn(env, t))
  {
    forall v, w | Inv(env, t, v) && Ok(env, t, v, w)
      ensures Inv(env, t, Apply(v, w))
    {
      SafeKeepsSound(env, v, w);
      if t {
        HonestKeepsTruth(env, v, w);
      }
    }
  }

  ghost predicate PlanOk(env: Env, t: bool, v: World, ws: seq<Write>) {
    AllOk(OkFn(env, t), v, ws)
  }

  lemma {:induction false} PlanKeepsInv(env: Env, t: bool, v: World, ws: seq<Write>)
    requires EnvOk(env) && Inv(env, t, v) && PlanOk(env, t, v, ws)
    ensures Inv(env, t, ApplyAll(v, ws))
  {
    InvIsKept(env, t);
    EveryPrefix(InvFn(env, t), OkFn(env, t), v, ws, |ws|);
    assert ws[..|ws|] == ws;
  }

  lemma {:induction false} OneOk(env: Env, t: bool, v: World, w: Write)
    ensures PlanOk(env, t, v, [w]) <==> Ok(env, t, v, w)
    ensures ApplyAll(v, [w]) == Apply(v, w)
  {
    assert [w][1..] == [];
    assert AllOk(OkFn(env, t), Apply(v, w), []);
  }

  lemma {:induction false} NoneOk(env: Env, t: bool, v: World)
    ensures PlanOk(env, t, v, []) && ApplyAll(v, []) == v
  {
  }

  lemma {:induction false} ConcatOk(env: Env, t: bool, v: World, a: seq<Write>, b: seq<Write>)
    ensures PlanOk(env, t, v, a + b) <==> PlanOk(env, t, v, a) && PlanOk(env, t, ApplyAll(v, a), b)
    ensures ApplyAll(v, a + b) == ApplyAll(ApplyAll(v, a), b)
  {
    AllOkConcat(OkFn(env, t), v, a, b);
    ApplyAllConcat(v, a, b);
  }

  // ---------------------------------------------------------------- reconciliation

  /** A pending operation is always resolvable, and its receipt will say what happened. */
  lemma {:induction false} ResolveOneOk(env: Env, t: bool, v: World, skip: OpId, id: OpId)
    requires EnvOk(env) && Inv(env, t, v) && id in v.disk.intents
    ensures var x := ResolveOne(env, v.disk, History(v.moves), skip, id);
            if id == skip || id in v.disk.receipts then x == Settled
            else x.Resolve? && x.receipt.operationId == id && Ok(env, t, v, PutReceipt(x.receipt))
  {
    assert IntentOk(env, v.disk.intents[id], id);
    if id in v.disk.receipts {
      assert ReceiptOk(v.disk, id);
    } else if id != skip {
      ResolvePendingOk(env, t, v, skip, id);
    }
  }

  lemma {:induction false} ResolvePendingOk(env: Env, t: bool, v: World, skip: OpId, id: OpId)
    requires EnvOk(env) && Inv(env, t, v) && id in Pending(v.disk) && id != skip
    ensures var x := ResolveOne(env, v.disk, History(v.moves), skip, id);
            x.Resolve? && x.receipt.operationId == id && Ok(env, t, v, PutReceipt(x.receipt))
  {
    assert IntentOk(env, v.disk.intents[id], id);
    if PointerKind(v.disk.intents[id].kind) {
      PointerReceiptOk(env, t, v, id);
    } else {
      PolicyReceiptOk(env, t, v, id);
    }
  }

  lemma {:induction false} PointerReceiptOk(env: Env, t: bool, v: World, id: OpId)
    requires EnvOk(env) && Inv(env, t, v) && id in Pending(v.disk) && PointerKind(v.disk.intents[id].kind)
    ensures var x := ResolvePointer(v.disk, History(v.moves), v.disk.intents[id]);
            x.Resolve? && x.receipt.operationId == id && Ok(env, t, v, PutReceipt(x.receipt))
  {
    assert IntentOk(env, v.disk.intents[id], id);
    PointerResolves(env, v, id);
  }

  lemma {:induction false} PolicyReceiptOk(env: Env, t: bool, v: World, id: OpId)
    requires EnvOk(env) && Inv(env, t, v) && id in Pending(v.disk) && PolicyKind(v.disk.intents[id].kind)
    ensures var x := ResolvePolicy(v.disk, v.disk.intents[id]);
            x.Resolve? && x.receipt.operationId == id && Ok(env, t, v, PutReceipt(x.receipt))
  {
    assert IntentOk(env, v.disk.intents[id], id);
  }

  lemma {:induction false} PointerResolves(env: Env, v: World, id: OpId)
    requires EnvOk(env) && Sound(env, v) && id in Pending(v.disk)
    requires PointerKind(v.disk.intents[id].kind)
    ensures v.disk.intents[id].target in History(v.moves) <==> v.disk.intents[id].target == v.disk.active
    ensures v.disk.intents[id].target != v.disk.active ==> v.disk.intents[id].source == v.disk.active
    ensures v.disk.intents[id].target != ""
  {
    var r := v.disk.intents[id];
    assert IntentOk(env, r, id);
    var s: Snapshot :| env.hash(s) == r.target && s.parent == r.source;
    if r.source == v.disk.active {
      NewTargetIsNew(env, v, r.target);
    } else {
      HistoryIn(v.moves, r.target);
    }
  }

  /** `v` is `base` with more receipts. */
  ghost predicate MoreReceipts(base: World, v: World) {
    && v == World(base.disk.(receipts := v.disk.receipts), base.moves, base.saves)
    && (forall id :: id in base.disk.receipts ==> id in v.disk.receipts && v.disk.receipts[id] == base.disk.receipts[id])
  }

  /** What resolving one operation does to a world that satisfies `inv`. */
  ghost predicate StepFact(inv: World -> bool, ok: (World, Write) -> bool, env: Env, base: World, v: World, skip: OpId, id: OpId)
    requires id in base.disk.intents
  {
    var x := ResolveOne(env, base.disk, History(base.moves), skip, id);
    if id == skip || id in v.disk.receipts then x == Settled
    else
      && x.Resolve? && x.receipt.operationId == id
      && ok(v, PutReceipt(x.receipt)) && inv(Apply(v, PutReceipt(x.receipt)))
  }

  ghost predicate StepFacts(inv: World -> bool, ok: (World, Write) -> bool, env: Env, base: World, skip: OpId) {
    forall v: World, id: OpId ::
      && inv(v) && MoreReceipts(base, v) && id in base.disk.intents
      && (id in v.disk.receipts <==> id in base.disk.receipts)
      ==> StepFact(inv, ok, env, base, v, skip, id)
  }

  lemma {:induction false} ReconcileStepsOk(env: Env, t: bool, base: World, skip: OpId)
    requires EnvOk(env)
    ensures StepFacts(InvFn(env, t), OkFn(env, t), env, base, skip)
  {
    forall v: World, id: OpId | Inv(env, t, v) && MoreReceipts(base, v) && id in base.disk.intents
      && (id in v.disk.receipts <==> id in base.disk.receipts)
      ensures StepFact(InvFn(env, t), OkFn(env, t), env, base, v, skip, id)
    {
      ResolveOneOk(env, t, v, skip, id);
      SameResolution(env, base, v, skip, id);
      var x := ResolveOne(env, base.disk, History(base.moves), skip, id);
      if x.Resolve? {
        OneOk(env, t, v, PutReceipt(x.receipt));
        PlanKeepsInv(env, t, v, [PutReceipt(x.receipt)]);
      }
    }
  }

  lemma {:induction false} UnfoldReconcile(env: Env, d: Disk, chain: seq<Hash>, skip: OpId, ids: seq<OpId>, receipt: Record)
    requires forall id :: id in ids ==> id in d.intents
    requires ids != [] && ResolveOne(env, d, chain, skip, ids[0]) == Resolve(receipt)
    ensures var rest := ReconcileIds(env, d, chain, skip, ids[1..], false);
            ReconcileIds(env, d, chain, skip, ids, false) == Plan([PutReceipt(receipt)] + rest.writes, rest.out)
  {
  }

  lemma {:induction false} TransitiveReceipts(v: World, r: Record, u: World)
    requires r.operationId !in v.disk.receipts && MoreReceipts(Apply(v, PutReceipt(r)), u)
    ensures MoreReceipts(v, u) && r.operationId in u.disk.receipts
  {
  }

  /** The loop over the journal, for any property that one resolution keeps. */
  lemma {:induction false} ReconcileIdsOk(inv: World -> bool, ok: (World, Write) -> bool, env: Env,
                                          base: World, v: World, skip: OpId, ids: seq<OpId>)
    requires StepFacts(inv, ok, env, base, skip) && inv(v) && MoreReceipts(base, v)
    requires forall id :: id in ids ==> id in base.disk.intents && (id in v.disk.receipts <==> id in base.disk.receipts)
    requires forall i, j :: 0 <= i < j < |ids| ==> ids[i] != ids[j]
    ensures var p := ReconcileIds(env, base.disk, History(base.moves), skip, ids, false);
            var u := ApplyAll(v, p.writes);
            && p.out == Reconciled && AllOk(ok, v, p.writes) && MoreReceipts(v, u) && inv(u)
            && (forall i :: 0 <= i < |ids| && ids[i] != skip ==> ids[i] in u.disk.receipts)
            && (skip in u.disk.receipts <==> skip in v.disk.receipts)
    decreases |ids|
  {
    if ids != [] {
      var id, tail := ids[0], ids[1..];
      assert StepFact(inv, ok, env, base, v, skip, id);
      var x := ResolveOne(env, base.disk, History(base.moves), skip, id);
      if x == Settled {
        ReconcileIdsOk(inv, ok, env, base, v, skip, tail);
      } else {
        var w := PutReceipt(x.receipt);
        var rest := ReconcileIds(env, base.disk, History(base.moves), skip, tail, false);
        assert forall k :: k in tail ==> k != id;
        ReconcileIdsOk(inv, ok, env, base, Apply(v, w), skip, tail);
        UnfoldReconcile(env, base.disk, History(base.moves), skip, ids, x.receipt);
        assert ([w] + rest.writes)[1..] == rest.writes;
        TransitiveReceipts(v, w.receipt, ApplyAll(Apply(v, w), rest.writes));
      }
    }
  }

  lemma {:induction false} SameResolution(env: Env, base: World, v: World, skip: OpId, id: OpId)
    requires MoreReceipts(base, v) && id in base.disk.intents
    requires id in v.disk.receipts <==> id in base.disk.receipts
    ensures ResolveOne(env, base.disk, History(base.moves), skip, id) == ResolveOne(env, v.disk, History(v.moves), skip, id)
  {
  }

  /** Reconciliation never finds an ambiguous operation: it succeeds, writes only receipts, and
      leaves nothing pending but the operation it was told to skip. */
  lemma {:induction false} ReconcileOk(env: Env, t: bool, v: World, skip: OpId)
    requires EnvOk(env) && Inv(env, t, v)
    ensures var p := PlanReconcile(env, v.disk, skip);
            var u := ApplyAll(v, p.writes);
            && p.out == Reconciled && PlanOk(env, t, v, p.writes) && MoreReceipts(v, u)
            && Inv(env, t, u) && Pending(u.disk) <= {skip}
            && (skip in u.disk.receipts <==> skip in v.disk.receipts)
            && u.disk == ApplyDiskAll(v.disk, p.writes)
  {
    WalkIsHistory(env, v);
    var ids := env.listing(v.disk.intents.Keys);
    assert Lists(ids, v.disk.intents.Keys);
    ReconcileStepsOk(env, t, v, skip);
    ReconcileIdsOk(InvFn(env, t), OkFn(env, t), env, v, v, skip, ids);
    ApplyAllDisk(v, PlanReconcile(env, v.disk, skip).writes);
  }

  // ---------------------------------------------------------------- small plans

  lemma {:induction false} SnapshotPlanOk(env: Env, t: bool, v: World, s: Snapshot)
    requires EnvOk(env) && Inv(env, t, v) && Valid(env, s)
    ensures var p := PlanSnapshot(v.disk, env.hash(s), s);
            && p.out == Continue && PlanOk(env, t, v, p.writes)
            && ApplyAll(v, p.writes) == v.(disk := v.disk.(snapshots := v.disk.snapshots[env.hash(s) := s]))
            && ApplyDiskAll(v.disk, p.writes) == ApplyAll(v, p.writes).disk
  {
    var h := env.hash(s);
    var p := PlanSnapshot(v.disk, h, s);
    ApplyAllDisk(v, p.writes);
    if h in v.disk.snapshots {
      assert env.hash(v.disk.snapshots[h]) == h;
      assert v.disk.snapshots[h := s] == v.disk.snapshots;
      NoneOk(env, t, v);
    } else {
      OneOk(env, t, v, PutSnapshot(h, s));
    }
  }

  lemma {:induction false} StoredEffect(v: World, h: Hash, s: Snapshot)
    requires !PlanSnapshot(v.disk, h, s).out.Failed?
    ensures ApplyAll(v, PlanSnapshot(v.disk, h, s).writes) == v.(disk := v.disk.(snapshots := v.disk.snapshots[h := s]))
  {
    var ws := PlanSnapshot(v.disk, h, s).writes;
    if ws != [] {
      assert ws[1..] == [];
    } else {
      assert v.disk.snapshots[h := s] == v.disk.snapshots;
    }
  }

  lemma {:induction false} StoredDisk(d: Disk, h: Hash, s: Snapshot)
    requires !PlanSnapshot(d, h, s).out.Failed?
    ensures ApplyDiskAll(d, PlanSnapshot(d, h, s).writes) == d.(snapshots := d.snapshots[h := s])
  {
    StoredEffect(World(d, [], {}), h, s);
    ApplyAllDisk(World(d, [], {}), PlanSnapshot(d, h, s).writes);
  }

  /** The world after an intent was announced: unchanged when it was announced before. */
  ghost function Announced(v: World, r: Record): World {
    if r.operationId in v.disk.intents then v
    else v.(disk := v.disk.(intents := v.disk.intents[r.operationId := r]))
  }

  lemma {:induction false} IntentPlanOk(env: Env, t: bool, v: World, r: Record)
    requires EnvOk(env) && Inv(env, t, v) && IntentOk(env, r, r.operationId) && r.source == v.disk.active
    requires t && PolicyKind(r.kind) ==> !ShownOnDisk(v.disk, r)
    ensures var p := PlanIntent(v.disk, r);
            && PlanOk(env, t, v, p.writes)
            && (p.out.Failed? ==> p.writes == [])
            && (!p.out.Failed? ==>
                  && ApplyAll(v, p.writes) == Announced(v, r) && Inv(env, t, Announced(v, r))
                  && SameIntent(Announced(v, r).disk.intents[r.operationId], r))
            && ApplyDiskAll(v.disk, p.writes) == ApplyAll(v, p.writes).disk
  {
    var p := PlanIntent(v.disk, r);
    ApplyAllDisk(v, p.writes);
    NoneOk(env, t, v);
    if r.operationId !in v.disk.intents {
      if PointerKind(r.kind) {
        NewTargetIsNew(env, v, r.target);
      }
      OneOk(env, t, v, PutIntent(r));
      PlanKeepsInv(env, t, v, p.writes);
    }
  }

  lemma {:induction false} ReceiptPlanOk(env: Env, t: bool, v: World, r: Record)
    requires EnvOk(env) && Inv(env, t, v)
    requires r.operationId in v.disk.intents && ValidReceipt(v.disk.intents[r.operationId], r)
    requires r.operationId !in v.disk.receipts ==> t ==> Honest(v, PutReceipt(r))
    ensures var p := PlanReceipt(v.disk, r);
            && PlanOk(env, t, v, p.writes) && Inv(env, t, ApplyAll(v, p.writes))
            && MoreReceipts(v, ApplyAll(v, p.writes))
            && (!p.out.Failed? ==> r.operationId in ApplyAll(v, p.writes).disk.receipts
                                   && ApplyAll(v, p.writes).disk.receipts[r.operationId] == r)
            && (p.out.Failed? ==> p.writes == [])
            && ApplyDiskAll(v.disk, p.writes) == ApplyAll(v, p.writes).disk
  {
    var p := PlanReceipt(v.disk, r);
    ApplyAllDisk(v, p.writes);
    NoneOk(env, t, v);
    if p.writes != [] {
      OneOk(env, t, v, PutReceipt(r));
      PlanKeepsInv(env, t, v, p.writes);
    }
  }

  // ---------------------------------------------------------------- publication

  lemma {:induction false} ActiveIsStored(env: Env, v: World)
    requires Sound(env, v) && v.disk.active != ""
    ensures v.disk.active in v.disk.snapshots
    ensures Load(env, v.disk, v.disk.active) == Some(v.disk.snapshots[v.disk.active])
    ensures LoadActive(env, v.disk) == ActiveIs(v.disk.snapshots[v.disk.active], v.disk.active)
  {
    assert MoveOk(v, |v.moves| - 1);
  }

  /** The pointer move of an announced publication is admissible. */
  lemma {:induction false} MoveIsOk(env: Env, t: bool, v: World, s: Snapshot, intent: Record)
    requires EnvOk(env) && Inv(env, t, v)
    requires env.hash(s) == intent.target && s.parent == intent.source && intent.source == v.disk.active
    requires intent.target in v.disk.snapshots && PointerKind(intent.kind)
    requires intent.operationId in v.disk.intents && SameIntent(v.disk.intents[intent.operationId], intent)
    requires Pending(v.disk) <= {intent.operationId}
    requires t ==> intent.operationId !in v.disk.receipts
    ensures Ok(env, t, v, MovePointer(intent.operationId, intent.target))
    ensures Inv(env, t, Apply(v, MovePointer(intent.operationId, intent.target)))
  {
    var w := MovePointer(intent.operationId, intent.target);
    assert env.hash(v.disk.snapshots[intent.target]) == intent.target;
    OneOk(env, t, v, w);
    PlanKeepsInv(env, t, v, [w]);
  }

  /** Pointer move and receipt. */
  lemma {:induction false} MoveAndRecordOk(env: Env, t: bool, v: World, s: Snapshot, intent: Record)
    requires EnvOk(env) && Inv(env, t, v)
    requires env.hash(s) == intent.target && s.parent == intent.source && intent.source == v.disk.active
    requires intent.target in v.disk.snapshots && PointerKind(intent.kind)
    requires intent.operationId in v.disk.intents && SameIntent(v.disk.intents[intent.operationId], intent)
    requires Pending(v.disk) <= {intent.operationId}
    requires t ==> intent.operationId !in v.disk.receipts
    ensures var recorded := PlanReceipt(v.disk, AppliedReceipt(intent, intent.target));
            var ws := [MovePointer(intent.operationId, intent.target)] + recorded.writes;
            && PlanOk(env, t, v, ws)
            && (!recorded.out.Failed? ==> Pending(ApplyAll(v, ws).disk) == {})
  {
    var receipt := AppliedReceipt(intent, intent.target);
    var w := MovePointer(intent.operationId, intent.target);
    MoveIsOk(env, t, v, s, intent);
    OneOk(env, t, v, w);
    var u := Apply(v, w);
    RecordMoveOk(env, t, u, intent);
    var recorded := PlanReceipt(v.disk, receipt);
    assert recorded == PlanReceipt(u.disk, receipt);
    ConcatOk(env, t, v, [w], recorded.writes);
  }

  lemma {:induction false} RecordMoveOk(env: Env, t: bool, v: World, intent: Record)
    requires EnvOk(env) && Inv(env, t, v) && PointerKind(intent.kind)
    requires intent.operationId in v.disk.intents && SameIntent(v.disk.intents[intent.operationId], intent)
    requires intent.target == v.disk.active && intent.target != "" && Pending(v.disk) <= {intent.operationId}
    ensures var recorded := PlanReceipt(v.disk, AppliedReceipt(intent, intent.target));
            && PlanOk(env, t, v, recorded.writes)
            && (!recorded.out.Failed? ==> Pending(ApplyAll(v, recorded.writes).disk) == {})
  {
    var receipt := AppliedReceipt(intent, intent.target);
    ReceiptPlanOk(env, t, v, receipt);
    if !PlanReceipt(v.disk, receipt).out.Failed? {
      RecordedPending(v, receipt);
    }
  }

  lemma {:induction false} RecordedEffect(v: World, r: Record)
    requires !PlanReceipt(v.disk, r).out.Failed?
    ensures ApplyAll(v, PlanReceipt(v.disk, r).writes) == v.(disk := v.disk.(receipts := v.disk.receipts[r.operationId := r]))
  {
    var ws := PlanReceipt(v.disk, r).writes;
    if ws != [] {
      assert ws[1..] == [];
    } else {
      assert v.disk.receipts[r.operationId := r] == v.disk.receipts;
    }
  }

  lemma {:induction false} RecordedPending(v: World, r: Record)
    requires !PlanReceipt(v.disk, r).out.Failed?
    ensures Pending(ApplyAll(v, PlanReceipt(v.disk, r).writes).disk) == Pending(v.disk) - {r.operationId}
  {
    RecordedEffect(v, r);
  }

  /** Intent, pointer move and receipt, once the generation is stored. */
  lemma {:induction false} AnnounceAndMoveOk(env: Env, t: bool, v: World, s: Snapshot, intent: Record)
    requires EnvOk(env) && Inv(env, t, v) && IntentOk(env, intent, intent.operationId)
    requires env.hash(s) == intent.target && s.parent == intent.source && intent.source == v.disk.active
    requires intent.target in v.disk.snapshots && PointerKind(intent.kind)
    requires Pending(v.disk) <= {intent.operationId}
    requires t ==> intent.operationId !in v.disk.receipts
    ensures var announced := PlanIntent(v.disk, intent);
            var recorded := PlanReceipt(v.disk, AppliedReceipt(intent, intent.target));
            var ws := announced.writes + ([MovePointer(intent.operationId, intent.target)] + recorded.writes);
            && (announced.out.Failed? ==> announced.writes == [])
            && (!announced.out.Failed? ==> PlanOk(env, t, v, ws))
            && (!announced.out.Failed? && !recorded.out.Failed? ==> Pending(ApplyAll(v, ws).disk) == {})
  {
    var announced := PlanIntent(v.disk, intent);
    var recorded := PlanReceipt(v.disk, AppliedReceipt(intent, intent.target));
    IntentPlanOk(env, t, v, intent);
    if !announced.out.Failed? {
      var u := Announced(v, intent);
      MoveAndRecordOk(env, t, u, s, intent);
      assert recorded == PlanReceipt(u.disk, AppliedReceipt(intent, intent.target));
      ConcatOk(env, t, v, announced.writes, [MovePointer(intent.operationId, intent.target)] + recorded.writes);
    }
  }

  /** The three ways the write list of a publication can look. */
  lemma {:induction false} PublishBodyShape(env: Env, d: Disk, s: Snapshot, expected: Hash, m: Metadata, now: string)
    ensures var h := env.hash(s);
            var p := PlanPublishBody(env, d, s, expected, m, now);
            var stored := PlanSnapshot(d, h, s);
            var d1 := ApplyDiskAll(d, stored.writes);
            var changes := SnapshotChanges(env, d1, expected, s);
            if stored.out.Failed? || changes.None? then p.writes == stored.writes && p.out.Failed?
            else
              var intent := PublishIntent(env, expected, h, m, changes.value, now);
              var announced := PlanIntent(d1, intent);
              var recorded := PlanReceipt(d1, AppliedReceipt(intent, h));
              if announced.out.Failed? then p.writes == stored.writes && p.out.Failed?
              else
                && p.writes == stored.writes + (announced.writes + ([MovePointer(intent.operationId, h)] + recorded.writes))
                && (recorded.out.Failed? ==> p.out.Failed?) && (!recorded.out.Failed? ==> p.out == Published(h))
  {
  }

  lemma {:induction false} PublishIntentOk(env: Env, s: Snapshot, expected: Hash, m: Metadata, changes: set<CardChange>, now: string)
    requires EnvOk(env) && PublishInputOk(env, s, expected, m)
    ensures var intent := PublishIntent(env, expected, env.hash(s), m, changes, now);
            IntentOk(env, intent, intent.operationId) && PointerKind(intent.kind)
  {
    assert Extends(env, expected, env.hash(s));
  }

  lemma {:induction false} PublishBodyOk(env: Env, t: bool, v: World, s: Snapshot, expected: Hash, m: Metadata, now: string)
    requires EnvOk(env) && Inv(env, t, v) && PublishInputOk(env, s, expected, m) && v.disk.active == expected
    requires var id := PublishId(env, expected, env.hash(s), m);
             Pending(v.disk) <= {id} && (t ==> id !in v.disk.receipts)
    ensures var p := PlanPublishBody(env, v.disk, s, expected, m, now);
            && PlanOk(env, t, v, p.writes)
            && (p.out.Failed? || (p.out == Published(env.hash(s)) && Pending(ApplyAll(v, p.writes).disk) == {}))
  {
    var h := env.hash(s);
    var stored := PlanSnapshot(v.disk, h, s);
    SnapshotPlanOk(env, t, v, s);
    PlanKeepsInv(env, t, v, stored.writes);
    PublishBodyShape(env, v.disk, s, expected, m, now);
    var u := ApplyAll(v, stored.writes);
    var changes := SnapshotChanges(env, u.disk, expected, s);
    if changes.Some? {
      var intent := PublishIntent(env, expected, h, m, changes.value, now);
      PublishIntentOk(env, s, expected, m, changes.value, now);
      AnnounceAndMoveOk(env, t, u, s, intent);
      var recorded := PlanReceipt(u.disk, AppliedReceipt(intent, h));
      ConcatOk(env, t, v, stored.writes,
               PlanIntent(u.disk, intent).writes + ([MovePointer(intent.operationId, h)] + recorded.writes));
    }
  }

  lemma {:induction false} PublishOk(env: Env, t: bool, v: World, s: Snapshot, expected: Hash, m: Metadata, skip: OpId, now: string)
    requires EnvOk(env) && Inv(env, t, v)
    requires skip == "" || skip == m.operationId
    requires t ==> PublishId(env, expected, env.hash(s), m) !in ApplyDiskAll(v.disk, PlanReconcile(env, v.disk, skip).writes).receipts
    ensures var p := PlanPublish(env, v.disk, s, expected, m, skip, now);
            && PlanOk(env, t, v, p.writes)
            && (p.out.Failed? || (p.out == Published(env.hash(s)) && Pending(ApplyAll(v, p.writes).disk) == {}))
  {
    NoneOk(env, t, v);
    PublishShape(env, v.disk, s, expected, m, skip, now);
    if PublishInputOk(env, s, expected, m) && v.disk.active == expected && !LoadActive(env, v.disk).ActiveBroken? {
      ReconcileOk(env, t, v, skip);
      var rec := PlanReconcile(env, v.disk, skip);
      var u := ApplyAll(v, rec.writes);
      OnlySkipped(env, u, skip);
      PublishBodyOk(env, t, u, s, expected, m, now);
      ConcatOk(env, t, v, rec.writes, PlanPublishBody(env, u.disk, s, expected, m, now).writes);
    }
  }

  lemma {:induction false} OnlySkipped(env: Env, v: World, skip: OpId)
    requires Sound(env, v) && Pending(v.disk) <= {skip}
    ensures skip == "" ==> Pending(v.disk) == {}
  {
    if skip in Pending(v.disk) {
      assert IntentOk(env, v.disk.intents[skip], skip);
    }
  }

  lemma {:induction false} PublishShape(env: Env, d: Disk, s: Snapshot, expected: Hash, m: Metadata, skip: OpId, now: string)
    requires EnvOk(env)
    ensures var p, rec := PlanPublish(env, d, s, expected, m, skip, now), PlanReconcile(env, d, skip);
            if PublishInputOk(env, s, expected, m) && d.active == expected && !LoadActive(env, d).ActiveBroken? then
              p == Then(rec, PlanPublishBody(env, ApplyDiskAll(d, rec.writes), s, expected, m, now))
            else p.writes == [] && p.out.Failed?
  {
  }

  // ---------------------------------------------------------------- policies

  /** Every other pending operation is a publication or a restore. */
  ghost predicate OthersArePointers(d: Disk, op: OpId) {
    forall id :: id in Pending(d) && id != op ==> PointerKind(d.intents[id].kind)
  }

  lemma {:induction false} OthersKept(v: World, intent: Record)
    requires OthersArePointers(v.disk, intent.operationId)
    ensures OthersArePointers(Announced(v, intent).disk, intent.operationId)
  {
  }

  lemma {:induction false} SaveIsOk(env: Env, t: bool, v: World, intent: Record, p: Policy)
    requires EnvOk(env) && Inv(env, t, v)
    requires intent.operationId in v.disk.intents && SameIntent(v.disk.intents[intent.operationId], intent)
    requires PolicyKind(intent.kind) && |intent.changes| == 1 && p.projectId != ""
    requires OnlyChange(intent.changes).projectId == p.projectId && PolicyShows(p, intent)
    requires t ==> intent.operationId !in v.disk.receipts
    requires OthersArePointers(v.disk, intent.operationId)
    ensures Ok(env, t, v, PutPolicy(intent.operationId, p)) && Inv(env, t, Apply(v, PutPolicy(intent.operationId, p)))
  {
    var w := PutPolicy(intent.operationId, p);
    OneOk(env, t, v, w);
    PlanKeepsInv(env, t, v, [w]);
  }

  lemma {:induction false} RecordPolicyOk(env: Env, t: bool, v: World, intent: Record)
    requires EnvOk(env) && Inv(env, t, v) && PolicyKind(intent.kind)
    requires intent.operationId in v.disk.intents && SameIntent(v.disk.intents[intent.operationId], intent)
    requires |intent.changes| == 1 && ShownOnDisk(v.disk, intent)
    requires intent.target == v.disk.active && intent.target != ""
    ensures var recorded := PlanReceipt(v.disk, AppliedReceipt(intent, v.disk.active));
            var u := ApplyAll(v, recorded.writes);
            && PlanOk(env, t, v, recorded.writes) && MoreReceipts(v, u)
            && (!recorded.out.Failed? ==> Pending(u.disk) == Pending(v.disk) - {intent.operationId})
  {
    ReceiptPlanOk(env, t, v, AppliedReceipt(intent, v.disk.active));
  }

  lemma {:induction false} SaveAndRecordEffect(v: World, intent: Record, p: Policy)
    ensures var recorded := PlanReceipt(v.disk, AppliedReceipt(intent, v.disk.active));
            var u := ApplyAll(v, [PutPolicy(intent.operationId, p)] + recorded.writes);
            && u.disk == v.disk.(policies := v.disk.policies[p.projectId := p], receipts := u.disk.receipts)
            && u.moves == v.moves
            && (!recorded.out.Failed? ==> u.disk.receipts.Keys == v.disk.receipts.Keys + {intent.operationId})
            && (recorded.out.Failed? ==> u.disk.receipts == v.disk.receipts)
  {
    var w := PutPolicy(intent.operationId, p);
    var recorded := PlanReceipt(v.disk, AppliedReceipt(intent, v.disk.active));
    ApplyAllConcat(v, [w], recorded.writes);
    assert ApplyAll(v, [w]) == Apply(v, w) by { assert [w][1..] == []; }
    if recorded.writes != [] {
      assert recorded.writes[1..] == [];
    }
  }

  /** Policy file and receipt. */
  lemma {:induction false} SaveAndRecordOk(env: Env, t: bool, v: World, intent: Record, p: Policy)
    requires EnvOk(env) && Inv(env, t, v)
    requires intent.operationId in v.disk.intents && SameIntent(v.disk.intents[intent.operationId], intent)
    requires PolicyKind(intent.kind) && |intent.changes| == 1 && p.projectId != ""
    requires intent.target == v.disk.active && intent.target != ""
    requires OnlyChange(intent.changes).projectId == p.projectId && PolicyShows(p, intent)
    requires t ==> intent.operationId !in v.disk.receipts
    requires OthersArePointers(v.disk, intent.operationId)
    ensures var recorded := PlanReceipt(v.disk, AppliedReceipt(intent, v.disk.active));
            PlanOk(env, t, v, [PutPolicy(intent.operationId, p)] + recorded.writes)
  {
    var w := PutPolicy(intent.operationId, p);
    SaveIsOk(env, t, v, intent, p);
    OneOk(env, t, v, w);
    var receipt := AppliedReceipt(intent, v.disk.active);
    RecordPolicyOk(env, t, Apply(v, w), intent);
    assert PlanReceipt(v.disk, receipt) == PlanReceipt(Apply(v, w).disk, receipt);
    ConcatOk(env, t, v, [w], PlanReceipt(v.disk, receipt).writes);
  }

  ghost function PolicyWrites(d: Disk, intent: Record, p: Policy): seq<Write> {
    PlanIntent(d, intent).writes
      + ([PutPolicy(intent.operationId, p)] + PlanReceipt(d, AppliedReceipt(intent, d.active)).writes)
  }

  lemma {:induction false} AnnouncedEffect(v: World, intent: Record)
    requires !PlanIntent(v.disk, intent).out.Failed?
    ensures ApplyAll(v, PlanIntent(v.disk, intent).writes) == Announced(v, intent)
    ensures intent.operationId in Announced(v, intent).disk.intents
    ensures SameIntent(Announced(v, intent).disk.intents[intent.operationId], intent)
    ensures Pending(Announced(v, intent).disk) == Pending(v.disk) + ({intent.operationId} - v.disk.receipts.Keys)
  {
    var p := PlanIntent(v.disk, intent);
    if p.writes != [] {
      assert p.writes[1..] == [];
    }
  }

  lemma {:induction false} PolicyWritesEffect(v: World, intent: Record, p: Policy)
    requires !PlanIntent(v.disk, intent).out.Failed?
    ensures var u := ApplyAll(v, PolicyWrites(v.disk, intent, p));
            var recorded := PlanReceipt(v.disk, AppliedReceipt(intent, v.disk.active));
            && u.disk == Announced(v, intent).disk.(policies := v.disk.policies[p.projectId := p], receipts := u.disk.receipts)
            && u.moves == v.moves
            && (!recorded.out.Failed? ==> u.disk.receipts.Keys == v.disk.receipts.Keys + {intent.operationId})
            && (recorded.out.Failed? ==> u.disk.receipts == v.disk.receipts)
  {
    var announced := PlanIntent(v.disk, intent);
    var receipt := AppliedReceipt(intent, v.disk.active);
    AnnouncedEffect(v, intent);
    var v1 := Announced(v, intent);
    assert PlanReceipt(v.disk, receipt) == PlanReceipt(v1.disk, receipt);
    SaveAndRecordEffect(v1, intent, p);
    ApplyAllConcat(v, announced.writes, [PutPolicy(intent.operationId, p)] + PlanReceipt(v.disk, receipt).writes);
  }

  /** A policy change announced by `intent`: announce, save, record. */
  lemma {:induction false} PolicyWritesOk(env: Env, t: bool, v: World, intent: Record, p: Policy)
    requires EnvOk(env) && Inv(env, t, v)
    requires IntentOk(env, intent, intent.operationId) && PolicyKind(intent.kind) && intent.source == v.disk.active
    requires OnlyChange(intent.changes).projectId == p.projectId && PolicyShows(p, intent)
    requires !ShownOnDisk(v.disk, intent) && (t ==> intent.operationId !in v.disk.receipts)
    requires OthersArePointers(v.disk, intent.operationId)
    ensures !PlanIntent(v.disk, intent).out.Failed? ==> PlanOk(env, t, v, PolicyWrites(v.disk, intent, p))
  {
    var announced := PlanIntent(v.disk, intent);
    var receipt := AppliedReceipt(intent, v.disk.active);
    if !announced.out.Failed? {
      IntentPlanOk(env, t, v, intent);
      AnnouncedEffect(v, intent);
      var v1 := Announced(v, intent);
      OthersKept(v, intent);
      SaveAndRecordOk(env, t, v1, intent, p);
      assert PlanReceipt(v.disk, receipt) == PlanReceipt(v1.disk, receipt);
      ConcatOk(env, t, v, announced.writes, [PutPolicy(intent.operationId, p)] + PlanReceipt(v.disk, receipt).writes);
    }
  }

  /** The id under which a policy change would be journalled, if it gets that far. */
  ghost function PolicyChangeId(env: Env, d: Disk, asked: Policy, now: string): Option<OpId> {
    match LoadActive(env, d)
    case ActiveIs(s, active) =>
      var i := EntryIndex(s.entries, asked.projectId);
      if i < 0 || LoadPolicy(d, asked.projectId).None? then None
      else
        var p := asked.(revision := LoadPolicy(d, asked.projectId).value.revision + 1,
                        currentEntryHash := env.entryHash(s.entries[i]), updatedAt := now);
        Some(PolicyIntent(env, active, p).operationId)
    case _ => None
  }

  /** The policy a change would save, and the intent that would announce it. */
  ghost function ChangedPolicy(env: Env, d: Disk, asked: Policy, now: string): Policy
    requires PolicyChangeId(env, d, asked, now).Some?
  {
    var s := LoadActive(env, d).snapshot;
    asked.(revision := LoadPolicy(d, asked.projectId).value.revision + 1,
           currentEntryHash := env.entryHash(s.entries[EntryIndex(s.entries, asked.projectId)]), updatedAt := now)
  }

  lemma {:induction false} PolicyBodyShape(env: Env, d: Disk, asked: Policy, e: Hash, n: nat, now: string)
    ensures var q := PlanPolicyBody(env, d, asked, e, n, now);
            q.writes == []
            || (&& PolicyChangeId(env, d, asked, now).Some?
                && (var p := ChangedPolicy(env, d, asked, now);
                    var intent := PolicyIntent(env, d.active, p);
                    && q.writes == PolicyWrites(d, intent, p) && !PlanIntent(d, intent).out.Failed?
                    && (q.out.PolicySaved? ==> q.out.policy == p)
                    && (q.out.Failed? <==> PlanReceipt(d, AppliedReceipt(intent, d.active)).out.Failed?)))
  {
    var q := PlanPolicyBody(env, d, asked, e, n, now);
    if q.writes != [] {
      var p := ChangedPolicy(env, d, asked, now);
      var intent := PolicyIntent(env, d.active, p);
      assert q.writes == PolicyWrites(d, intent, p);
    }
  }

  lemma {:induction false} PolicyIntentOk(env: Env, d: Disk, asked: Policy, now: string)
    requires EnvOk(env) && PolicyChangeId(env, d, asked, now).Some?
    ensures var p := ChangedPolicy(env, d, asked, now);
            var intent := PolicyIntent(env, d.active, p);
            && IntentOk(env, intent, intent.operationId) && PolicyShows(p, intent) && !ShownOnDisk(d, intent)
            && OnlyChange(intent.changes).projectId == p.projectId
            && intent.operationId == PolicyChangeId(env, d, asked, now).value
  {
    var p := ChangedPolicy(env, d, asked, now);
    var intent := PolicyIntent(env, d.active, p);
    assert OnlyChange(intent.changes) in intent.changes;
  }

  lemma {:induction false} PolicyBodyOk(env: Env, t: bool, v: World, asked: Policy, e: Hash, n: nat, now: string)
    requires EnvOk(env) && Inv(env, t, v) && Pending(v.disk) == {}
    requires t && PolicyChangeId(env, v.disk, asked, now).Some? ==>
               PolicyChangeId(env, v.disk, asked, now).value !in v.disk.receipts
    ensures PlanOk(env, t, v, PlanPolicyBody(env, v.disk, asked, e, n, now).writes)
  {
    NoneOk(env, t, v);
    PolicyBodyShape(env, v.disk, asked, e, n, now);
    if PolicyChangeId(env, v.disk, asked, now).Some? {
      PolicyIntentOk(env, v.disk, asked, now);
      var p := ChangedPolicy(env, v.disk, asked, now);
      PolicyWritesOk(env, t, v, PolicyIntent(env, v.disk.active, p), p);
    }
  }

  // ---------------------------------------------------------------- restore

  lemma {:induction false} ReadyWork(env: Env, v: World, r: RestoreRequest, now: string)
    requires EnvOk(env) && Sound(env, v)
    requires CheckRestore(env, v.disk, r, now).RestoreGo?
    ensures var k := CheckRestore(env, v.disk, r, now).work;
            && v.disk.active != "" && r.projectId != ""
            && k.next.parent == v.disk.active && k.target == env.hash(k.next) && Valid(env, k.next)
            && k.policy.projectId == r.projectId && LoadPolicy(v.disk, r.projectId) == Some(k.policy)
            && Extends(env, v.disk.active, k.target)
            && k.index < |v.disk.snapshots[v.disk.active].entries|
            && v.disk.active in v.disk.snapshots
            && k.current == v.disk.snapshots[v.disk.active].entries[k.index]
            && k.next.entries == v.disk.snapshots[v.disk.active].entries[k.index := k.restored]
            && k.current.projectId == r.projectId
            && k.index == EntryIndex(v.disk.snapshots[v.disk.active].entries, r.projectId)
  {
    ActiveIsStored(env, v);
  }

  /** The journal keeps metadata texts of at most 256 bytes; a restore accepts reasons up to 512. */
  predicate ReasonFits(r: RestoreRequest) {
    |r.reason| <= 256
  }

  lemma {:induction false} RestoreIntentOk(env: Env, v: World, r: RestoreRequest, now: string)
    requires EnvOk(env) && Sound(env, v) && CheckRestore(env, v.disk, r, now).RestoreGo?
    requires r.operationId != "" && ReasonOk(r.reason) && ReasonFits(r)
    ensures var k := CheckRestore(env, v.disk, r, now).work;
            IntentOk(env, RestoreIntent(env, v.disk.active, r, k, now), r.operationId)
  {
    ReadyWork(env, v, r, now);
  }

  lemma {:induction false} HoldIntentOk(env: Env, v: World, r: RestoreRequest, now: string)
    requires EnvOk(env) && Sound(env, v) && CheckRestore(env, v.disk, r, now).RestoreGo?
    ensures var k := CheckRestore(env, v.disk, r, now).work;
            var intent := HoldIntent(env, v.disk.active, r, k, now);
            var p := HeldPolicy(env, r, k, now);
            && IntentOk(env, intent, intent.operationId) && PolicyShows(p, intent) && !ShownOnDisk(v.disk, intent)
            && OnlyChange(intent.changes).projectId == p.projectId == r.projectId
            && intent.source == v.disk.active
  {
    ReadyWork(env, v, r, now);
    var k := CheckRestore(env, v.disk, r, now).work;
    var intent := HoldIntent(env, v.disk.active, r, k, now);
    assert OnlyChange(intent.changes) in intent.changes;
  }

  lemma {:induction false} HoldShape(env: Env, v: World, r: RestoreRequest, k: RestoreWork, now: string)
    requires r.operationId !in v.disk.intents
    ensures var p := PlanHold(env, v.disk, r, k, now);
            var w := PutIntent(RestoreIntent(env, v.disk.active, r, k, now));
            var d1 := Apply(v, w).disk;
            var intent := HoldIntent(env, v.disk.active, r, k, now);
            if PlanIntent(d1, intent).out.Failed? then p.writes == [w] && p.out.Failed?
            else
              && p.writes == [w] + PolicyWrites(d1, intent, HeldPolicy(env, r, k, now))
              && p.out == PlanReceipt(d1, AppliedReceipt(intent, v.disk.active)).out
  {
    var w := PutIntent(RestoreIntent(env, v.disk.active, r, k, now));
    assert [w][1..] == [];
    assert ApplyDiskAll(v.disk, [w]) == ApplyDisk(v.disk, w);
  }

  /** The state that a completed hold leaves behind. */
  lemma {:induction false} HoldEffect(env: Env, v: World, r: RestoreRequest, k: RestoreWork, now: string)
    requires r.operationId !in v.disk.intents && r.operationId !in v.disk.receipts && Pending(v.disk) == {}
    requires !PlanHold(env, v.disk, r, k, now).out.Failed?
    ensures var u := ApplyAll(v, PlanHold(env, v.disk, r, k, now).writes);
            var p := HeldPolicy(env, r, k, now);
            && u.disk.policies == v.disk.policies[p.projectId := p]
            && u.disk.active == v.disk.active && u.disk.snapshots == v.disk.snapshots && u.moves == v.moves
            && Pending(u.disk) == {r.operationId}
  {
    var w := PutIntent(RestoreIntent(env, v.disk.active, r, k, now));
    var intent := HoldIntent(env, v.disk.active, r, k, now);
    HoldShape(env, v, r, k, now);
    var v1 := Apply(v, w);
    ApplyAllConcat(v, [w], PolicyWrites(v1.disk, intent, HeldPolicy(env, r, k, now)));
    assert ApplyAll(v, [w]) == v1 by { assert [w][1..] == []; }
    PolicyWritesEffect(v1, intent, HeldPolicy(env, r, k, now));
    AnnouncedEffect(v1, intent);
    assert !SameIntent(w.intent, intent);
    assert intent.operationId != r.operationId;
  }

  lemma {:induction false} AnnounceRestoreOk(env: Env, t: bool, v: World, r: RestoreRequest, now: string)
    requires EnvOk(env) && Inv(env, t, v) && Pending(v.disk) == {}
    requires r.operationId !in v.disk.intents && CheckRestore(env, v.disk, r, now).RestoreGo?
    requires r.operationId != "" && ReasonOk(r.reason) && ReasonFits(r)
    ensures var k := CheckRestore(env, v.disk, r, now).work;
            var w := PutIntent(RestoreIntent(env, v.disk.active, r, k, now));
            && PlanOk(env, t, v, [w]) && Inv(env, t, Apply(v, w)) && ApplyAll(v, [w]) == Apply(v, w)
  {
    var k := CheckRestore(env, v.disk, r, now).work;
    var ri := RestoreIntent(env, v.disk.active, r, k, now);
    RestoreIntentOk(env, v, r, now);
    IntentPlanOk(env, t, v, ri);
    OneOk(env, t, v, PutIntent(ri));
  }

  lemma {:induction false} OnlyPending(v: World, r: Record, op: OpId)
    requires Pending(v.disk) == {} && PointerKind(r.kind)
    ensures OthersArePointers(Apply(v, PutIntent(r)).disk, op)
  {
    var d := Apply(v, PutIntent(r)).disk;
    assert forall id :: id in Pending(d) && id != r.operationId ==> id in Pending(v.disk);
  }

  lemma {:induction false} SaveHoldOk(env: Env, t: bool, v: World, ri: Record, r: RestoreRequest, now: string)
    requires EnvOk(env) && Inv(env, t, Apply(v, PutIntent(ri))) && Pending(v.disk) == {} && Sound(env, v)
    requires PointerKind(ri.kind) && CheckRestore(env, v.disk, r, now).RestoreGo?
    requires var k := CheckRestore(env, v.disk, r, now).work;
             t ==> HoldIntent(env, v.disk.active, r, k, now).operationId !in v.disk.receipts
    ensures var k := CheckRestore(env, v.disk, r, now).work;
            var v1 := Apply(v, PutIntent(ri));
            var intent := HoldIntent(env, v.disk.active, r, k, now);
            !PlanIntent(v1.disk, intent).out.Failed? ==>
              PlanOk(env, t, v1, PolicyWrites(v1.disk, intent, HeldPolicy(env, r, k, now)))
  {
    var k := CheckRestore(env, v.disk, r, now).work;
    HoldIntentOk(env, v, r, now);
    OnlyPending(v, ri, HoldIntent(env, v.disk.active, r, k, now).operationId);
    PolicyWritesOk(env, t, Apply(v, PutIntent(ri)), HoldIntent(env, v.disk.active, r, k, now), HeldPolicy(env, r, k, now));
  }

  lemma {:induction false} HoldOk(env: Env, t: bool, v: World, r: RestoreRequest, now: string)
    requires EnvOk(env) && Inv(env, t, v) && Pending(v.disk) == {}
    requires r.operationId !in v.disk.intents && CheckRestore(env, v.disk, r, now).RestoreGo?
    requires r.operationId != "" && ReasonOk(r.reason) && ReasonFits(r)
    requires var k := CheckRestore(env, v.disk, r, now).work;
             t ==> HoldIntent(env, v.disk.active, r, k, now).operationId !in v.disk.receipts
    ensures var k := CheckRestore(env, v.disk, r, now).work;
            PlanOk(env, t, v, PlanHold(env, v.disk, r, k, now).writes)
  {
    var k := CheckRestore(env, v.disk, r, now).work;
    var w := PutIntent(RestoreIntent(env, v.disk.active, r, k, now));
    AnnounceRestoreOk(env, t, v, r, now);
    SaveHoldOk(env, t, v, w.intent, r, now);
    HoldShape(env, v, r, k, now);
    ConcatOk(env, t, v, [w],
      PolicyWrites(Apply(v, w).disk, HoldIntent(env, v.disk.active, r, k, now), HeldPolicy(env, r, k, now)));
  }

  lemma {:induction false} RestoreBodyShape(env: Env, d: Disk, r: RestoreRequest, k: RestoreWork, now: string)
    requires EnvOk(env)
    ensures var p := PlanRestoreBody(env, d, r, k, now);
            var held := PlanHold(env, d, r, k, now);
            var published := PlanPublish(env, ApplyDiskAll(d, held.writes), k.next, d.active, RestoreMetadata(env, r), r.operationId, now);
            var settled := PutPolicy("", HeldPolicy(env, r, k, now).(currentEntryHash := env.entryHash(k.restored)));
            if held.out.Failed? then p == held
            else if published.out.Failed? then p == Plan(held.writes + published.writes, published.out)
            else p == Plan(held.writes + (published.writes + [settled]), Answered(AnswerRestored, k.target))
  {
  }

  lemma {:induction false} SettleOk(env: Env, t: bool, v: World, p: Policy)
    requires EnvOk(env) && Inv(env, t, v) && Pending(v.disk) == {} && p.projectId != ""
    ensures PlanOk(env, t, v, [PutPolicy("", p)])
  {
    OneOk(env, t, v, PutPolicy("", p));
  }

  lemma {:induction false} RestoreBodyOk(env: Env, t: bool, v: World, r: RestoreRequest, now: string)
    requires EnvOk(env) && Inv(env, t, v) && Pending(v.disk) == {}
    requires r.operationId !in v.disk.intents && CheckRestore(env, v.disk, r, now).RestoreGo?
    requires r.operationId != "" && ReasonOk(r.reason) && ReasonFits(r)
    requires var k := CheckRestore(env, v.disk, r, now).work;
             t ==> HoldIntent(env, v.disk.active, r, k, now).operationId !in v.disk.receipts
    ensures var k := CheckRestore(env, v.disk, r, now).work;
            PlanOk(env, t, v, PlanRestoreBody(env, v.disk, r, k, now).writes)
  {
    var k := CheckRestore(env, v.disk, r, now).work;
    RestoreBodyShape(env, v.disk, r, k, now);
    HoldOk(env, t, v, r, now);
    NoReceiptWithoutIntent(env, v, r.operationId);
    var held := PlanHold(env, v.disk, r, k, now);
    if !held.out.Failed? {
      HoldEffect(env, v, r, k, now);
      PlanKeepsInv(env, t, v, held.writes);
      ApplyAllDisk(v, held.writes);
      ReadyWork(env, v, r, now);
      RestorePublishOk(env, t, v, ApplyAll(v, held.writes), held.writes, r, k, now);
    }
  }

  lemma {:induction false} NoReceiptWithoutIntent(env: Env, v: World, id: OpId)
    requires Sound(env, v)
    ensures id !in v.disk.intents ==> id !in v.disk.receipts
  {
    if id in v.disk.receipts {
      assert ReceiptOk(v.disk, id);
    }
  }

  lemma {:induction false} RestorePublishOk(env: Env, t: bool, v: World, u: World, before: seq<Write>, r: RestoreRequest, k: RestoreWork, now: string)
    requires EnvOk(env) && Inv(env, t, u) && Pending(u.disk) == {r.operationId} && r.operationId != ""
    requires u == ApplyAll(v, before) && PlanOk(env, t, v, before) && k.policy.projectId != ""
    ensures var published := PlanPublish(env, u.disk, k.next, v.disk.active, RestoreMetadata(env, r), r.operationId, now);
            var settled := PutPolicy("", HeldPolicy(env, r, k, now).(currentEntryHash := env.entryHash(k.restored)));
            && PlanOk(env, t, v, before + published.writes)
            && (!published.out.Failed? ==> PlanOk(env, t, v, before + (published.writes + [settled])))
  {
    var m := RestoreMetadata(env, r);
    var published := PlanPublish(env, u.disk, k.next, v.disk.active, m, r.operationId, now);
    var p := HeldPolicy(env, r, k, now).(currentEntryHash := env.entryHash(k.restored));
    ReconcileOk(env, t, u, r.operationId);
    PublishOk(env, t, u, k.next, v.disk.active, m, r.operationId, now);
    ConcatOk(env, t, v, before, published.writes);
    if !published.out.Failed? {
      PlanKeepsInv(env, t, u, published.writes);
      SettleOk(env, t, ApplyAll(u, published.writes), p);
      ConcatOk(env, t, u, published.writes, [PutPolicy("", p)]);
      ConcatOk(env, t, v, before, published.writes + [PutPolicy("", p)]);
    }
  }

  // ---------------------------------------------------------------- every operation

  /** The directory as the operation sees it after its own recovery. */
  ghost function Recovered(env: Env, d: Disk): Disk
    requires EnvOk(env)
  {
    ApplyDiskAll(d, PlanReconcile(env, d, "").writes)
  }

  /** The generated or supplied operation ids under which a request would move the pointer or
      save a policy. The id of a restore is not among them: a restore looks it up first. */
  ghost function OwnIds(env: Env, d: Disk, q: Request, now: string): set<OpId> {
    match q
    case Publish(s, expected, m) =>
      {PublishId(env, expected, env.hash(s), if m.kind == NoKind then m.(kind := Manual) else m)}
    case PublishGuarded(s, expected, m, _) => {PublishId(env, expected, env.hash(s), m.(kind := Maintenance))}
    case Restore(r) =>
      if CheckRestore(env, d, r, now).RestoreGo?
      then {HoldIntent(env, d.active, r, CheckRestore(env, d, r, now).work, now).operationId} else {}
    case SetPolicy(p, _, _) =>
      if PolicyChangeId(env, d, p, now).Some? then {PolicyChangeId(env, d, p, now).value} else {}
    case SetHold(id, hold, reason, _, _) =>
      if LoadPolicy(d, id).None? then {}
      else
        var p := LoadPolicy(d, id).value.(hold := hold, reason := reason);
        if PolicyChangeId(env, d, p, now).Some? then {PolicyChangeId(env, d, p, now).value} else {}
    case Reconcile => {}
  }

  /** None of the ids that the request is about to use has a receipt yet. */
  ghost predicate FreshIds(env: Env, d: Disk, q: Request, now: string)
    requires EnvOk(env)
  {
    OwnIds(env, Recovered(env, d), q, now) !! Recovered(env, d).receipts.Keys
  }

  predicate Admissible(q: Request) {
    q.Restore? ==> ReasonFits(q.request)
  }

  lemma {:induction false} PolicyRequestOk(env: Env, t: bool, v: World, asked: Policy, e: Hash, n: nat, now: string)
    requires EnvOk(env) && Inv(env, t, v)
    requires t && PolicyChangeId(env, Recovered(env, v.disk), asked, now).Some? ==>
               PolicyChangeId(env, Recovered(env, v.disk), asked, now).value !in Recovered(env, v.disk).receipts
    ensures var rec := PlanReconcile(env, v.disk, "");
            PlanOk(env, t, v, Then(rec, PlanPolicyBody(env, Recovered(env, v.disk), asked, e, n, now)).writes)
  {
    var rec := PlanReconcile(env, v.disk, "");
    ReconcileOk(env, t, v, "");
    var u := ApplyAll(v, rec.writes);
    NothingPending(env, u);
    PolicyBodyOk(env, t, u, asked, e, n, now);
    ConcatOk(env, t, v, rec.writes, PlanPolicyBody(env, u.disk, asked, e, n, now).writes);
  }

  lemma {:induction false} NothingPending(env: Env, v: World)
    requires Sound(env, v) && Pending(v.disk) <= {""}
    ensures Pending(v.disk) == {}
  {
    forall id | id in Pending(v.disk)
      ensures id != ""
    {
      assert IntentOk(env, v.disk.intents[id], id);
    }
  }

  /** The writes of a restore: nothing, its recovery only, or its recovery and its own work. */
  lemma {:induction false} RestoreShape(env: Env, d: Disk, r: RestoreRequest, now: string)
    requires EnvOk(env)
    ensures var p, rec := PlanRestore(env, d, r, now), PlanReconcile(env, d, "");
            var d1 := Recovered(env, d);
            if r.operationId == "" || !ReasonOk(r.reason) then p == Plan([], Failed(InvalidInput))
            else if rec.out.Failed? then p == rec
            else if LoadOperation(d1, r.operationId).LookupIs? then
              p == Plan(rec.writes, RecordedAnswer(env, r, LoadOperation(d1, r.operationId).record))
            else if CheckRestore(env, d1, r, now).RestoreStops? then p == Plan(rec.writes, CheckRestore(env, d1, r, now).out)
            else
              var body := PlanRestoreBody(env, d1, r, CheckRestore(env, d1, r, now).work, now);
              p == Plan(rec.writes + body.writes, body.out)
  {
  }

  lemma {:induction false} RestoreRequestOk(env: Env, t: bool, v: World, r: RestoreRequest, now: string)
    requires EnvOk(env) && Inv(env, t, v) && ReasonFits(r)
    requires t ==> FreshIds(env, v.disk, Restore(r), now)
    ensures PlanOk(env, t, v, PlanRestore(env, v.disk, r, now).writes)
  {
    NoneOk(env, t, v);
    var rec := PlanReconcile(env, v.disk, "");
    ReconcileOk(env, t, v, "");
    RestoreShape(env, v.disk, r, now);
    var d := Recovered(env, v.disk);
    if r.operationId != "" && ReasonOk(r.reason) && !LoadOperation(d, r.operationId).LookupIs?
       && CheckRestore(env, d, r, now).RestoreGo? {
      RecoveredRestoreOk(env, t, ApplyAll(v, rec.writes), r, now);
      ConcatOk(env, t, v, rec.writes, PlanRestoreBody(env, d, r, CheckRestore(env, d, r, now).work, now).writes);
    }
  }

  lemma {:induction false} RecoveredRestoreOk(env: Env, t: bool, v: World, r: RestoreRequest, now: string)
    requires EnvOk(env) && Inv(env, t, v) && ReasonFits(r) && Pending(v.disk) <= {""}
    requires r.operationId != "" && ReasonOk(r.reason) && !LoadOperation(v.disk, r.operationId).LookupIs?
    requires CheckRestore(env, v.disk, r, now).RestoreGo?
    requires t ==> OwnIds(env, v.disk, Restore(r), now) !! v.disk.receipts.Keys
    ensures PlanOk(env, t, v, PlanRestoreBody(env, v.disk, r, CheckRestore(env, v.disk, r, now).work, now).writes)
  {
    NothingPending(env, v);
    KnownIsFound(env, v, r.operationId);
    RestoreBodyOk(env, t, v, r, now);
  }

  /** On a sound disk the journal lookup fails only for ids it has never seen. */
  lemma {:induction false} KnownIsFound(env: Env, v: World, id: OpId)
    requires Sound(env, v)
    ensures LoadOperation(v.disk, id).LookupIs? <==> id in v.disk.intents
    ensures !LoadOperation(v.disk, id).LookupBroken?
  {
    if id in v.disk.receipts {
      assert ReceiptOk(v.disk, id);
    } else if id in v.disk.intents {
      assert IntentOk(env, v.disk.intents[id], id);
    }
  }

  /** Every operation, in every state that satisfies the invariant, performs only admissible
      writes; with fresh ids they also keep the journal truthful. */
  lemma {:induction false} RequestOk(env: Env, t: bool, v: World, q: Request, now: string)
    requires EnvOk(env) && Inv(env, t, v) && Admissible(q)
    requires t ==> FreshIds(env, v.disk, q, now)
    ensures PlanOk(env, t, v, PlanOf(env, v.disk, q, now).writes)
  {
    NoneOk(env, t, v);
    match q
    case Publish(s, expected, m) =>
      PublishOk(env, t, v, s, expected, if m.kind == NoKind then m.(kind := Manual) else m, "", now);
    case PublishGuarded(s, expected, m, guards) =>
      PublishOk(env, t, v, s, expected, m.(kind := Maintenance), "", now);
    case Restore(r) => RestoreRequestOk(env, t, v, r, now);
    case SetPolicy(p, e, n) =>
      PolicyRequestOk(env, t, v, p, e, n, now);
    case SetHold(id, hold, reason, e, n) =>
      ReconcileOk(env, t, v, "");
      if LoadPolicy(Recovered(env, v.disk), id).Some? {
        PolicyRequestOk(env, t, v, LoadPolicy(Recovered(env, v.disk), id).value.(hold := hold, reason := reason), e, n, now);
      }
    case Reconcile => ReconcileOk(env, t, v, "");
  }

  lemma {:induction false} StepKeepsInv(env: Env, t: bool, v: World, e: Event)
    requires EnvOk(env) && Inv(env, t, v) && Admissible(e.request)
    requires t ==> FreshIds(env, v.disk, e.request, e.now)
    ensures Inv(env, t, Step(env, v, e))
  {
    RequestOk(env, t, v, e.request, e.now);
    var p := PlanOf(env, v.disk, e.request, e.now);
    InvIsKept(env, t);
    var k := if e.done <= |p.writes| then e.done else |p.writes|;
    EveryPrefix(InvFn(env, t), OkFn(env, t), v, p.writes, k);
    assert Taken(p, e.done) == p.writes[..k];
  }
}
