/** What a restore does to the text that counts as declared by the client. */
module CatalogSources {
  import opened Options
  import opened CatalogTypes
  import opened CatalogJournal
  import opened CatalogInvariant
  import opened CatalogSteps
  import opened CatalogTheorems
  import opened CatalogHolds
  import opened CatalogRetries

  /** A restore copies the historical text but keeps today's provenance. It keeps the effective declared
      summary exactly when the summary is declared apart from the text, or the text does not count as
      the client's, or it is the same text. */
  lemma {:induction false} RestoreKeepsDeclaredSourceIff(env: Env, v: World, r: RestoreRequest, now: string)
    requires EnvOk(env) && Inv(env, false, v) && UniqueProjects(ActiveEntries(env, v.disk)) && Restores(env, v.disk, r, now)
    ensures var was := ProjectEntry(env, v.disk, r.projectId);
            var after := ProjectEntry(env, ApplyAll(v, PlanRestore(env, v.disk, r, now).writes).disk, r.projectId);
            && was.Some? && after == RestoredEntry(env, v.disk, r) && after.Some?
            && (EffectiveDeclaredSource(after.value) == EffectiveDeclaredSource(was.value) <==>
                  was.value.declaredSummary != "" || was.value.source != ClientDeclared || after.value.desc.summary == was.value.desc.summary)
  {
    RestoredShield(env, v, r, now);
  }

  // ---------------------------------------------------------------- a run in which the source changes

  /** An operation that nothing interrupts. */
  ghost function Completed(env: Env, v: World, q: Request, now: string): Event
    requires EnvOk(env)
  {
    Event(q, now, |PlanOf(env, v.disk, q, now).writes|)
  }

  predicate AnnouncesOnly(w: Write, id: OpId) { w.PutIntent? ==> w.intent.operationId == id }

  lemma {:induction false} IntentsOnly(v: World, ws: seq<Write>, id: OpId)
    requires forall i :: 0 <= i < |ws| ==> AnnouncesOnly(ws[i], id)
    ensures ApplyAll(v, ws).disk.intents.Keys <= v.disk.intents.Keys + {id}
    decreases |ws|
  {
    if ws != [] {
      IntentsOnly(Apply(v, ws[0]), ws[1..], id);
    }
  }

  lemma {:induction false} NewPublicationSucceeds(env: Env, v: World, s: Snapshot, m: Metadata, now: string)
    requires EnvOk(env) && Inv(env, false, v) && PublishInputOk(env, s, v.disk.active, m)
    requires m.operationId != "" && m.operationId !in v.disk.intents
    ensures PlanPublish(env, v.disk, s, v.disk.active, m, "", now).out.Published?
  {
    if v.disk.active != "" {
      ActiveIsStored(env, v);
    }
    PublishShape(env, v.disk, s, v.disk.active, m, "", now);
    ReconcileOk(env, false, v, "");
    var v1 := ApplyAll(v, PlanReconcile(env, v.disk, "").writes);
    NoReceiptWithoutIntent(env, v1, m.operationId);
    PublishSucceedsIff(env, v1, s, v.disk.active, m, now);
  }

  lemma {:induction false} PublicationAnnouncesOnly(env: Env, d: Disk, s: Snapshot, m: Metadata, now: string)
    requires EnvOk(env) && m.operationId != ""
    ensures var ws := PlanPublish(env, d, s, d.active, m, "", now).writes;
            forall i :: 0 <= i < |ws| ==> AnnouncesOnly(ws[i], m.operationId)
  {
    var rec := PlanReconcile(env, d, "").writes;
    ReconcileWritesReceipts(env, d, "");
    BodyAnnouncesOnly(env, ApplyDiskAll(d, rec), s, d.active, m, now);
  }

  lemma {:induction false} BodyAnnouncesOnly(env: Env, d: Disk, s: Snapshot, expected: Hash, m: Metadata, now: string)
    requires m.operationId != ""
    ensures var ws := PlanPublishBody(env, d, s, expected, m, now).writes;
            forall i :: 0 <= i < |ws| ==> AnnouncesOnly(ws[i], m.operationId)
  {
    PublishBodyShape(env, d, s, expected, m, now);
  }

  /** A publication under a new id, on any sound catalog. */
  lemma {:induction false} PublishNew(env: Env, v: World, s: Snapshot, m: Metadata, now: string)
    requires EnvOk(env) && Inv(env, false, v) && PublishInputOk(env, s, v.disk.active, m) && m.kind != NoKind
    requires m.operationId != "" && m.operationId !in v.disk.intents
    ensures var u := Step(env, v, Completed(env, v, Publish(s, v.disk.active, m), now));
            && Inv(env, false, u) && Installed(env, v, u, s, m.operationId, m)
            && u.disk.intents.Keys <= v.disk.intents.Keys + {m.operationId}
  {
    var e := Completed(env, v, Publish(s, v.disk.active, m), now);
    var p := PlanPublish(env, v.disk, s, v.disk.active, m, "", now);
    assert PlanOf(env, v.disk, e.request, now) == p && Taken(p, |p.writes|) == p.writes;
    NewPublicationSucceeds(env, v, s, m, now);
    PublicationAnnouncesOnly(env, v.disk, s, m, now);
    IntentsOnly(v, p.writes, m.operationId);
    PublishEffect(env, v, s, v.disk.active, m, "", now);
    StepKeepsInv(env, false, v, e);
  }

  /** An entry with a description that was generated from the declared text. */
  function Derived(e: Entry, text: Description, generated: Description): Entry {
    e.(desc := generated, source := ModelDerived, declaredSummary := text.summary)
  }

  /** The same entry after the client has declared the text again. */
  function DeclaredAgain(e: Entry, text: Description): Entry {
    e.(desc := text, source := ClientDeclared, declaredSummary := "")
  }

  /** The generated description in the place of the declared one. */
  function Promoted(e: Entry, text: Description, generated: Description): Entry {
    RestoreDescription(DeclaredAgain(e, text), Derived(e, text, generated))
  }

  function Restoring(env: Env, id: OpId, s: Snapshot, t: Snapshot): RestoreRequest
    requires |s.entries| == 1 && |t.entries| == 1
  {
    RestoreRequest(id, "undo", s.entries[0].projectId, env.hash(s), env.entryHash(s.entries[0]), env.hash(t), env.entryHash(t.entries[0]), 0)
  }

  /** Two generations of one project that is eligible and known: one generated, one declared again. */
  predicate Generations(env: Env, e: Entry, text: Description, generated: Description, s: Snapshot, t: Snapshot) {
    && Valid(env, s) && Valid(env, t) && s.parent == "" && t.parent == env.hash(s)
    && Eligible(e) && e.projectId != "" && text.summary != "" && text.summary != generated.summary
    && s.entries == [Derived(e, text, generated)] && t.entries == [DeclaredAgain(e, text)]
  }

  ghost predicate BothPublished(env: Env, v: World, s: Snapshot, t: Snapshot, ids: set<OpId>) {
    && Inv(env, false, v) && v.disk.active == env.hash(t) && v.disk.policies == map[]
    && v.disk.snapshots == map[env.hash(s) := s, env.hash(t) := t]
    && |v.moves| == 2 && v.moves[0].target == env.hash(s) && v.disk.intents.Keys <= ids
  }

  lemma {:induction false} RestoringChecks(env: Env, d: Disk, e: Entry, text: Description, generated: Description, s: Snapshot, t: Snapshot,
                                           id: OpId, now: string)
    requires EnvOk(env) && Generations(env, e, text, generated, s, t) && d.policies == map[]
    requires Valid(env, Snapshot("restore-" + Prefix16(id), env.hash(t), now, [Promoted(e, text, generated)]))
    ensures var c := CheckRestoreEntries(env, d, Restoring(env, id, s, t), now, t, env.hash(t), s);
            c.RestoreGo? && c.work.current == t.entries[0] && c.work.restored == Promoted(e, text, generated)
            && c.work.next.entries == [c.work.restored]
  {
    var next := Promoted(e, text, generated);
    assert t.entries[0 := next] == [next];
  }

  /** The restore passes all its checks. */
  lemma {:induction false} PromotionGoesAhead(env: Env, v: World, e: Entry, text: Description, generated: Description, s: Snapshot, t: Snapshot,
                                              ids: set<OpId>, id: OpId, now: string)
    requires EnvOk(env) && Generations(env, e, text, generated, s, t) && BothPublished(env, v, s, t, ids) && id !in ids && id != ""
    requires Valid(env, Snapshot("restore-" + Prefix16(id), env.hash(t), now, [Promoted(e, text, generated)]))
    ensures GoesAhead(env, v.disk, Restoring(env, id, s, t), now)
    ensures var k := CheckRestore(env, Recovered(env, v.disk), Restoring(env, id, s, t), now).work;
            k.current == t.entries[0] && k.restored == Promoted(e, text, generated) && k.next.entries == [k.restored]
  {
    var r := Restoring(env, id, s, t);
    assert "undo"[0] == 'u';
    var u := JournalOnly(env, v);
    KnownIsFound(env, u, id);
    ActiveIsStored(env, u);
    MoveIsAncestor(env, u, 0);
    RestoringChecks(env, u.disk, e, text, generated, s, t, id, now);
    assert CheckRestore(env, u.disk, r, now) == CheckRestoreEntries(env, u.disk, r, now, t, env.hash(t), s);
  }

  /** Recovery changes nothing but receipts. */
  lemma {:induction false} JournalOnly(env: Env, v: World) returns (u: World)
    requires EnvOk(env) && Inv(env, false, v)
    ensures u == ApplyAll(v, PlanReconcile(env, v.disk, "").writes) && u.disk == Recovered(env, v.disk) && Inv(env, false, u)
    ensures u == v.(disk := v.disk.(receipts := u.disk.receipts)) && PlanReconcile(env, v.disk, "").out == Reconciled
  {
    u := ApplyAll(v, PlanReconcile(env, v.disk, "").writes);
    ReconcileOk(env, false, v, "");
    ReconcileWritesReceipts(env, v.disk, "");
    ReceiptsOnly(v, PlanReconcile(env, v.disk, "").writes);
  }

  lemma {:induction false} PromotionEnds(env: Env, v: World, e: Entry, text: Description, generated: Description, s: Snapshot, t: Snapshot,
                                         ids: set<OpId>, id: OpId, now: string)
    requires EnvOk(env) && Generations(env, e, text, generated, s, t) && BothPublished(env, v, s, t, ids)
    requires forall k :: env.opId(k) !in ids && env.opId(k) != id
    requires var r := Restoring(env, id, s, t);
             && GoesAhead(env, v.disk, r, now)
             && var k := CheckRestore(env, Recovered(env, v.disk), r, now).work;
                k.current == t.entries[0] && k.restored == Promoted(e, text, generated) && k.next.entries == [k.restored]
    ensures Restores(env, v.disk, Restoring(env, id, s, t), now)
  {
    var r := Restoring(env, id, s, t);
    var u := JournalOnly(env, v);
    var k := CheckRestore(env, u.disk, r, now).work;
    StoredEntries(env, u, s, t, ids);
    ChangeIsAnnouncedIff(env, u, r, now);
    HoldIsNew(env, u.disk, r, k, now, ids);
    Differs(e, text, generated, t);
    RestoreEndsIff(env, v, r, now);
  }

  lemma {:induction false} Differs(e: Entry, text: Description, generated: Description, t: Snapshot)
    requires Eligible(e) && text.summary != generated.summary && t.entries == [DeclaredAgain(e, text)]
    ensures Promoted(e, text, generated).desc != t.entries[0].desc && AllEligible([Promoted(e, text, generated)])
    ensures UniqueProjects(t.entries)
  {
  }

  lemma {:induction false} HoldIsNew(env: Env, d: Disk, r: RestoreRequest, k: RestoreWork, now: string, ids: set<OpId>)
    requires d.intents.Keys <= ids && forall key :: env.opId(key) !in ids && env.opId(key) != r.operationId
    ensures HoldTakes(env, d, r, k, now)
  {
  }

  function Manually(id: OpId): Metadata {
    NO_METADATA.(operationId := id, kind := Manual)
  }

  /** The two publications, one after the other. */
  lemma {:induction false} PublishBoth(env: Env, a: OpId, b: OpId, s: Snapshot, t: Snapshot, now: string) returns (events: seq<Event>)
    requires EnvOk(env) && a != b && a != "" && b != "" && env.hash(s) != env.hash(t)
    requires PublishInputOk(env, s, "", Manually(a)) && PublishInputOk(env, t, env.hash(s), Manually(b))
    ensures AdmissibleRun(events) && BothPublished(env, Run(env, EMPTY_WORLD, events), s, t, {a, b})
  {
    EmptyIsSound(env);
    var first := Completed(env, EMPTY_WORLD, Publish(s, "", Manually(a)), now);
    PublishNew(env, EMPTY_WORLD, s, Manually(a), now);
    var v1 := Step(env, EMPTY_WORLD, first);
    assert v1.disk.intents.Keys <= {a};
    var second := Completed(env, v1, Publish(t, env.hash(s), Manually(b)), now);
    PublishNew(env, v1, t, Manually(b), now);
    events := [first, second];
    RunOfTwo(env, EMPTY_WORLD, first, second);
    BothStored(env, s, t);
  }

  lemma {:induction false} BothStored(env: Env, s: Snapshot, t: Snapshot)
    ensures EMPTY_DISK.snapshots[env.hash(s) := s][env.hash(t) := t] == map[env.hash(s) := s, env.hash(t) := t]
  {
  }

  lemma {:induction false} Differ(env: Env, e: Entry, text: Description, generated: Description, s: Snapshot, t: Snapshot)
    requires EnvOk(env) && Generations(env, e, text, generated, s, t)
    ensures env.hash(s) != env.hash(t)
    ensures forall id :: PublishInputOk(env, s, "", Manually(id)) && PublishInputOk(env, t, env.hash(s), Manually(id))
  {
    assert s.entries[0] != t.entries[0];
  }

  lemma {:induction false} RunOfTwo(env: Env, v: World, a: Event, b: Event)
    requires EnvOk(env)
    ensures Run(env, v, [a, b]) == Step(env, Step(env, v, a), b)
  {
    assert [a, b][1..] == [b] && [b][1..] == [];
    assert Run(env, Step(env, v, a), [b]) == Step(env, Step(env, v, a), b);
  }

  /** So a generated text can become a declared one, although the restore checks that both entries have
      the same declared source: a generated description of a declared text is published, then the text
      itself as the client declares it again, and then the generated description is restored. The ids
      may be any but the generated one of the hold. */
  lemma {:induction false} GeneratedTextIsPromoted(env: Env, e: Entry, text: Description, generated: Description, s: Snapshot, t: Snapshot,
                                                   a: OpId, b: OpId, c: OpId, now: string) returns (events: seq<Event>)
    requires EnvOk(env) && Generations(env, e, text, generated, s, t)
    requires Valid(env, Snapshot("restore-" + Prefix16(c), env.hash(t), now, [Promoted(e, text, generated)]))
    requires a != b && b != c && a != c && "" !in {a, b, c} && forall k :: env.opId(k) !in {a, b} && env.opId(k) != c
    ensures var v := Run(env, EMPTY_WORLD, events);
            var r := Restoring(env, c, s, t);
            var was := ProjectEntry(env, v.disk, e.projectId);
            var after := ProjectEntry(env, Step(env, v, Completed(env, v, Restore(r), now)).disk, e.projectId);
            && AdmissibleRun(events) && ReasonFits(r) && Restores(env, v.disk, r, now) && was.Some? && after.Some?
            && EffectiveDeclaredSource(was.value) == text.summary && EffectiveDeclaredSource(after.value) == generated.summary
  {
    Differ(env, e, text, generated, s, t);
    events := PublishBoth(env, a, b, s, t, now);
    var v := Run(env, EMPTY_WORLD, events);
    PromotionGoesAhead(env, v, e, text, generated, s, t, {a, b}, c, now);
    PromotionEnds(env, v, e, text, generated, s, t, {a, b}, c, now);
    AfterPromotion(env, v, e, text, generated, s, t, {a, b}, c, now);
  }

  lemma {:induction false} StoredEntries(env: Env, v: World, s: Snapshot, t: Snapshot, ids: set<OpId>)
    requires EnvOk(env) && BothPublished(env, v, s, t, ids)
    ensures ActiveEntries(env, v.disk) == t.entries
    ensures env.hash(s) in v.disk.snapshots && v.disk.snapshots[env.hash(s)] == s
  {
    ActiveIsStored(env, v);
  }

  lemma {:induction false} CompletedStep(env: Env, v: World, r: RestoreRequest, now: string)
    requires EnvOk(env)
    ensures Step(env, v, Completed(env, v, Restore(r), now)) == ApplyAll(v, PlanRestore(env, v.disk, r, now).writes)
  {
    var p := PlanRestore(env, v.disk, r, now);
    assert PlanOf(env, v.disk, Restore(r), now) == p && Taken(p, |p.writes|) == p.writes;
  }

  lemma {:induction false} AfterPromotion(env: Env, v: World, e: Entry, text: Description, generated: Description, s: Snapshot, t: Snapshot,
                                          ids: set<OpId>, id: OpId, now: string)
    requires EnvOk(env) && Generations(env, e, text, generated, s, t) && BothPublished(env, v, s, t, ids)
    requires Restores(env, v.disk, Restoring(env, id, s, t), now)
    ensures ProjectEntry(env, v.disk, e.projectId) == Some(DeclaredAgain(e, text))
    ensures var r := Restoring(env, id, s, t);
            ProjectEntry(env, Step(env, v, Completed(env, v, Restore(r), now)).disk, e.projectId) == Some(Promoted(e, text, generated))
  {
    var r := Restoring(env, id, s, t);
    StoredEntries(env, v, s, t, ids);
    RestoreKeepsDeclaredSourceIff(env, v, r, now);
    CompletedStep(env, v, r, now);
  }
}
