/** Records and generations are created in place: a crash can leave one of them damaged. */
module CatalogTornWrites {
  import opened CatalogTypes
  import opened CatalogJournal
  import opened CatalogInvariant
  import opened CatalogSteps
  import opened CatalogTheorems
  import opened CatalogRetries

  /** The writes that create a file in place. The pointer and the policies are replaced by a rename. */
  predicate InPlace(w: Write) {
    w.PutSnapshot? || w.PutIntent? || w.PutReceipt?
  }

  /** A generation that is not the one its name stands for. */
  function Damaged(s: Snapshot): (t: Snapshot)
    ensures t != s
  {
    s.(version := s.version + "?")
  }

  /** The disk after a crash in the middle of a write. A record that cannot be decoded fails validation
      under any id. */
  function Torn(d: Disk, w: Write): Disk {
    match w
    case PutSnapshot(h, s) => d.(snapshots := d.snapshots[h := Damaged(s)])
    case PutIntent(r) => d.(intents := d.intents[r.operationId := r.(operationId := "")])
    case PutReceipt(r) => d.(receipts := d.receipts[r.operationId := r.(operationId := "")])
    case _ => d
  }

  function AfterCrash(v: World, w: Write): World {
    v.(disk := Torn(v.disk, w))
  }

  lemma {:induction false} TornRecordPoisons(env: Env, v: World, w: Write)
    requires Inv(env, false, v) && Safe(env, v, w) && (w.PutIntent? || w.PutReceipt?)
    ensures Poisoned(Torn(v.disk, w))
  {
    var id := if w.PutIntent? then w.intent.operationId else w.receipt.operationId;
    if w.PutReceipt? {
      assert IntentOk(env, v.disk.intents[id], id);
    }
    assert BadEntry(Torn(v.disk, w), id);
  }

  // ---------------------------------------------------------------- a damaged generation

  lemma {:induction false} WalkAround(env: Env, d: Disk, h: Hash, t: Snapshot, cursor: Hash, seen: seq<Hash>)
    requires h !in d.snapshots && Walk(env, d, cursor, seen).Some?
    ensures Walk(env, d.(snapshots := d.snapshots[h := t]), cursor, seen) == Walk(env, d, cursor, seen)
    decreases d.snapshots.Keys - (set x | x in seen)
  {
    if cursor != "" && cursor !in seen {
      assert cursor in d.snapshots.Keys - (set x | x in seen);
      assert cursor in (set x | x in seen + [cursor]);
      WalkAround(env, d, h, t, Load(env, d, cursor).value.parent, seen + [cursor]);
    }
  }

  lemma {:induction false} SameJournal(env: Env, d: Disk, e: Disk, chain: seq<Hash>, skip: OpId, ids: seq<OpId>, unclear: bool)
    requires (forall id :: id in ids ==> id in d.intents) && e == d.(snapshots := e.snapshots)
    ensures ReconcileIds(env, e, chain, skip, ids, unclear) == ReconcileIds(env, d, chain, skip, ids, unclear)
    decreases |ids|
  {
    if ids != [] {
      assert ResolveOne(env, e, chain, skip, ids[0]) == ResolveOne(env, d, chain, skip, ids[0]);
      SameJournal(env, d, e, chain, skip, ids[1..], unclear);
      SameJournal(env, d, e, chain, skip, ids[1..], true);
    }
  }

  /** No reader of the ancestry meets a generation that was never installed. */
  lemma {:induction false} RecoveryGoesAround(env: Env, v: World, h: Hash, t: Snapshot)
    requires EnvOk(env) && Inv(env, false, v) && h !in v.disk.snapshots
    ensures PlanReconcile(env, v.disk.(snapshots := v.disk.snapshots[h := t]), "") == PlanReconcile(env, v.disk, "")
  {
    var d := v.disk;
    var e := d.(snapshots := d.snapshots[h := t]);
    var ids := env.listing(d.intents.Keys);
    assert Lists(ids, d.intents.Keys);
    WalkIsHistory(env, v);
    WalkAround(env, d, h, t, d.active, []);
    SameJournal(env, d, e, Walk(env, d, d.active, []).value, "", ids, false);
    if d.active != "" {
      ActiveIsStored(env, v);
    }
  }

  // ---------------------------------------------------------------- what a crash in a write leaves

  /** After a crash in the middle of an admissible write, recovery works exactly when the damaged file is
      a generation; and then that generation cannot be published any more. */
  lemma {:induction false} RecoveredIffNoRecordIsTorn(env: Env, v: World, w: Write)
    requires EnvOk(env) && Inv(env, false, v) && Safe(env, v, w) && InPlace(w)
    ensures PlanReconcile(env, Torn(v.disk, w), "").out == Reconciled <==> w.PutSnapshot?
    ensures w.PutSnapshot? ==> PlanSnapshot(Torn(v.disk, w), w.hash, w.snapshot).out == Failed(SnapshotExists)
  {
    if w.PutSnapshot? {
      RecoveryGoesAround(env, v, w.hash, Damaged(w.snapshot));
      ReconcileOk(env, false, v, "");
    } else {
      TornRecordPoisons(env, v, w);
      PoisonedRecovery(env, Torn(v.disk, w));
    }
  }

  lemma {:induction false} OkAt(inv: World -> bool, ok: (World, Write) -> bool, v: World, ws: seq<Write>, k: nat)
    requires Kept(inv, ok) && inv(v) && AllOk(ok, v, ws) && k < |ws|
    ensures inv(ApplyAll(v, ws[..k])) && ok(ApplyAll(v, ws[..k]), ws[k])
    decreases k
  {
    if k == 0 {
      assert ws[..k] == [];
    } else {
      OkAt(inv, ok, Apply(v, ws[0]), ws[1..], k - 1);
      assert ws[..k][0] == ws[0] && ws[..k][1..] == ws[1..][..k - 1];
    }
  }

  /** In every run: the catalog as it is when an operation crashes in the middle of its write `k`. */
  ghost function Crashed(env: Env, v: World, q: Request, now: string, k: nat): World
    requires EnvOk(env) && k < |PlanOf(env, v.disk, q, now).writes|
  {
    var ws := PlanOf(env, v.disk, q, now).writes;
    AfterCrash(ApplyAll(v, ws[..k]), ws[k])
  }

  /** After any run, and a crash in the middle of a write: recovery works if and only if no record was
      torn. A torn intent or receipt makes every later request fail, whatever follows. */
  lemma {:induction false} TornRecordIsFatal(env: Env, events: seq<Event>, q: Request, now: string, k: nat, later: seq<Event>)
    requires EnvOk(env) && AdmissibleRun(events) && Admissible(q)
    requires var ws := PlanOf(env, Run(env, EMPTY_WORLD, events).disk, q, now).writes;
             k < |ws| && InPlace(ws[k])
    ensures var v := Run(env, EMPTY_WORLD, events);
            var w, u := PlanOf(env, v.disk, q, now).writes[k], Crashed(env, v, q, now, k);
            && (PlanReconcile(env, u.disk, "").out == Reconciled <==> w.PutSnapshot?)
            && (!w.PutSnapshot? ==>
                  var z := Run(env, u, later);
                  z == u.(disk := u.disk.(receipts := z.disk.receipts)) && PlanReconcile(env, z.disk, "").out.Failed?)
  {
    EmptyIsSound(env);
    RunKeepsInv(env, false, EMPTY_WORLD, events);
    CrashDecides(env, Run(env, EMPTY_WORLD, events), q, now, k, later);
  }

  lemma {:induction false} CrashDecides(env: Env, v: World, q: Request, now: string, k: nat, later: seq<Event>)
    requires EnvOk(env) && Inv(env, false, v) && Admissible(q)
    requires k < |PlanOf(env, v.disk, q, now).writes| && InPlace(PlanOf(env, v.disk, q, now).writes[k])
    ensures var w, u := PlanOf(env, v.disk, q, now).writes[k], Crashed(env, v, q, now, k);
            && (PlanReconcile(env, u.disk, "").out == Reconciled <==> w.PutSnapshot?)
            && (!w.PutSnapshot? ==>
                  var z := Run(env, u, later);
                  z == u.(disk := u.disk.(receipts := z.disk.receipts)) && PlanReconcile(env, z.disk, "").out.Failed?)
  {
    var ws := PlanOf(env, v.disk, q, now).writes;
    RequestOk(env, false, v, q, now);
    InvIsKept(env, false);
    OkAt(InvFn(env, false), OkFn(env, false), v, ws, k);
    var before := ApplyAll(v, ws[..k]);
    RecoveredIffNoRecordIsTorn(env, before, ws[k]);
    if !ws[k].PutSnapshot? {
      TornRecordPoisons(env, before, ws[k]);
      PoisonedForever(env, AfterCrash(before, ws[k]), later);
      PoisonedRecovery(env, Run(env, AfterCrash(before, ws[k]), later).disk);
    }
  }
}
