/** When a publication, and a guarded publication, goes through. */
module CatalogPublications {
  import opened Options
  import opened CatalogTypes
  import opened CatalogJournal
  import opened CatalogInvariant
  import opened CatalogSteps
  import opened CatalogTheorems
  import opened CatalogHolds
  import opened CatalogRetries
  import opened CatalogChecks
  import opened CatalogPolicies

  // ---------------------------------------------------------------- the conditions

  predicate ShortText(s: string) {
    |s| <= 256 && forall i :: 0 <= i < |s| ==> s[i] != '\0'
  }

  predicate MetadataFits(m: Metadata) {
    && m.kind in {NoKind, Manual, Registration, Maintenance, RestoreMeta, PolicyMeta}
    && ShortText(m.runId) && ShortText(m.model) && ShortText(m.rules) && ShortText(m.reason)
  }

  /** A generation that may follow `expected`. */
  predicate GenerationFits(env: Env, s: Snapshot, expected: Hash) {
    && s.parent == expected && env.wellFormed(s) && |s.entries| <= 32
    && (forall i, j :: 0 <= i < j < |s.entries| ==>
          (s.entries[i].namespace, s.entries[i].tag) != (s.entries[j].namespace, s.entries[j].tag))
    && (forall i :: 0 <= i < |s.entries| ==> s.entries[i].status in {Approved, Declared})
  }

  function KindOrManual(m: Metadata): Metadata {
    if m.kind == NoKind then m.(kind := Manual) else m
  }

  /** The caller may publish the project's new card: it exists before and after, is not held, the caller
      has seen the card and the policy, the policy lets the new card pass, and only the description is
      new. */
  ghost predicate GuardFits(env: Env, v: World, s: Snapshot, g: Guard) {
    && g.projectId != "" && IsActive(v, g.projectId) && HasProject(s.entries, g.projectId)
    && env.entryHash(ActiveCard(v, g.projectId)) == g.currentEntryHash
    && (var p := PolicyOf(v.disk, g.projectId);
        !p.hold && p.revision == g.revision && (p.historicalOnly ==> FirstOf(s.entries, g.projectId).desc.uses == []))
    && SameProject(ActiveCard(v, g.projectId), FirstOf(s.entries, g.projectId))
  }

  ghost predicate Guarded(guards: seq<Guard>, id: ProjectId) {
    exists i :: 0 <= i < |guards| && guards[i].projectId == id
  }

  // ---------------------------------------------------------------- publications

  lemma {:induction false} InputMeans(env: Env, s: Snapshot, expected: Hash, m: Metadata)
    ensures PublishInputOk(env, s, expected, m) <==> MetadataFits(m) && GenerationFits(env, s, expected)
  {
    if GenerationFits(env, s, expected) {
      assert AllEligible(s.entries);
      assert UniqueKeys(s.entries);
    }
  }

  /** On a truthful journal without pending operations a known id cannot be used again. */
  lemma {:induction false} BodyNeedsNewId(env: Env, v: World, s: Snapshot, expected: Hash, m: Metadata, now: string)
    requires EnvOk(env) && Inv(env, true, v) && Pending(v.disk) == {} && PublishInputOk(env, s, expected, m) && v.disk.active == expected
    ensures PlanPublishBody(env, v.disk, s, expected, m, now).out.Published?
            <==> PublishId(env, expected, env.hash(s), m) !in v.disk.intents
    ensures PlanPublishBody(env, v.disk, s, expected, m, now).out.Published? || PlanPublishBody(env, v.disk, s, expected, m, now).out.Failed?
  {
    var id := PublishId(env, expected, env.hash(s), m);
    SnapshotPlanOk(env, true, v, s);
    PublishBodyShape(env, v.disk, s, expected, m, now);
    NoReceiptWithoutIntent(env, v, id);
    if id in v.disk.receipts {
      if exists i :: 0 <= i < |PlanPublishBody(env, v.disk, s, expected, m, now).writes|
                     && PlanPublishBody(env, v.disk, s, expected, m, now).writes[i].MovePointer? {
        ReusedIdIsMisrecorded(env, v, s, expected, m, now);
      } else {
        PublishedMoves(env, v.disk, s, expected, m, now);
      }
    } else {
      assert id in v.disk.intents ==> id in Pending(v.disk);
      PublishSucceedsIff(env, v, s, expected, m, now);
    }
  }

  lemma {:induction false} PublishedMoves(env: Env, d: Disk, s: Snapshot, expected: Hash, m: Metadata, now: string)
    requires EnvOk(env) && PlanSnapshot(d, env.hash(s), s).out == Continue
    ensures var p := PlanPublishBody(env, d, s, expected, m, now);
            p.out.Published? ==> exists i :: 0 <= i < |p.writes| && p.writes[i].MovePointer?
  {
    var p := PlanPublishBody(env, d, s, expected, m, now);
    if p.out.Published? {
      PublishBodyEffect(env, World(d, [], {}), s, expected, m, now);
      if forall i :: 0 <= i < |p.writes| ==> KeepsPointer(p.writes[i]) {
        PointerKept(World(d, [], {}), p.writes);
        assert false;
      }
    }
  }

  lemma {:induction false} PlanEndsIff(env: Env, v: World, s: Snapshot, expected: Hash, m: Metadata, now: string)
    requires EnvOk(env) && Inv(env, true, v)
    ensures var p := PlanPublish(env, v.disk, s, expected, m, "", now);
            var fits := v.disk.active == expected && MetadataFits(m) && GenerationFits(env, s, expected);
            && (p.out.Published? <==> fits && PublishId(env, expected, env.hash(s), m) !in v.disk.intents)
            && (p.out.Published? || p.out.Failed?)
            && (!fits ==> p.writes == [])
  {
    InputMeans(env, s, expected, m);
    PublishShape(env, v.disk, s, expected, m, "", now);
    WalkIsHistory(env, v);
    ReconcileOk(env, true, v, "");
    var u := ApplyAll(v, PlanReconcile(env, v.disk, "").writes);
    NothingPending(env, u);
    if v.disk.active == expected && PublishInputOk(env, s, expected, m) {
      BodyNeedsNewId(env, u, s, expected, m, now);
    }
  }

  /** A publication goes through exactly when the caller has seen the active generation, the new one and
      its metadata are fit, and its operation id is new. One that is refused for the generation writes
      nothing at all. */
  lemma {:induction false} PublicationEndsIff(env: Env, v: World, s: Snapshot, expected: Hash, m: Metadata, now: string)
    requires EnvOk(env) && Inv(env, true, v)
    ensures var p := PlanOf(env, v.disk, Publish(s, expected, m), now);
            var fits := v.disk.active == expected && MetadataFits(m) && GenerationFits(env, s, expected);
            && (p.out.Published? <==> fits && PublishId(env, expected, env.hash(s), KindOrManual(m)) !in v.disk.intents)
            && (p.out.Published? || p.out.Failed?)
            && (!fits ==> p.writes == [])
  {
    PlanEndsIff(env, v, s, expected, KindOrManual(m), now);
  }

  // ---------------------------------------------------------------- guarded publications

  lemma {:induction false} GuardMeans(env: Env, v: World, s: Snapshot, g: Guard)
    requires EnvOk(env) && Sound(env, v)
    ensures GuardHolds(env, v.disk, s, g) <==> GuardFits(env, v, s, g)
  {
    if v.disk.active != "" {
      ActiveIsStored(env, v);
    }
    if IsActive(v, g.projectId) && HasProject(s.entries, g.projectId) {
      SameProjectMeans(ActiveCard(v, g.projectId), FirstOf(s.entries, g.projectId));
    }
  }

  /** The changes that a publication on the active generation makes. */
  ghost function ChangesOf(env: Env, v: World, s: Snapshot): set<CardChange> {
    CardChanges(env, ActiveEntries(env, v.disk), s.entries)
  }

  lemma {:induction false} ChangesAre(env: Env, v: World, s: Snapshot)
    requires EnvOk(env) && Sound(env, v)
    ensures SnapshotChanges(env, v.disk, v.disk.active, s) == Some(ChangesOf(env, v, s))
    ensures !LoadActive(env, v.disk).ActiveBroken?
  {
    if v.disk.active != "" {
      ActiveIsStored(env, v);
    }
  }

  ghost predicate IsChanged(env: Env, prior: seq<Entry>, next: seq<Entry>, id: ProjectId) {
    exists c :: c in CardChanges(env, prior, next) && c.projectId == id
  }

  /** When no project occurs twice, a project is among the changed ones exactly when it has one card before
      and another one, or none, after, or the other way round. */
  lemma {:induction false} ChangedIff(env: Env, prior: seq<Entry>, next: seq<Entry>, id: ProjectId)
    requires EnvOk(env) && UniqueProjects(prior) && UniqueProjects(next) && id != ""
    ensures IsChanged(env, prior, next, id) <==>
              if HasProject(prior, id) && HasProject(next, id) then FirstOf(prior, id) != FirstOf(next, id)
              else HasProject(prior, id) || HasProject(next, id)
  {
    if HasProject(prior, id) {
      LastIsOnly(prior, id, EntryIndex(prior, id));
    } else {
      NoLastEntry(prior, id);
    }
    if HasProject(next, id) {
      NewCardChanged(env, prior, next, id);
    } else if HasProject(prior, id) {
      Removed(env, prior, next, id);
    } else {
      NeverThere(env, prior, next, id);
    }
  }

  lemma {:induction false} NewCardChanged(env: Env, prior: seq<Entry>, next: seq<Entry>, id: ProjectId)
    requires UniqueProjects(next) && id != "" && HasProject(next, id)
    ensures IsChanged(env, prior, next, id) <==> CardChangeOf(env, prior, FirstOf(next, id)).Some?
  {
    var e := FirstOf(next, id);
    if CardChangeOf(env, prior, e).Some? {
      Altered(env, prior, next, e);
    } else if c :| c in CardChanges(env, prior, next) && c.projectId == id {
      OnlyCard(env, prior, next, id, c);
    }
  }

  lemma {:induction false} NeverThere(env: Env, prior: seq<Entry>, next: seq<Entry>, id: ProjectId)
    requires !HasProject(prior, id) && !HasProject(next, id)
    ensures !IsChanged(env, prior, next, id)
  {
    forall c | c in CardChanges(env, prior, next)
      ensures c.projectId != id
    {
      if e :| e in next && e.projectId != "" && CardChangeOf(env, prior, e) == Some(c) {
        assert e.projectId != id;
      } else if e :| e in prior && c.projectId == e.projectId {
        assert e.projectId != id;
      }
    }
  }

  lemma {:induction false} NoLastEntry(entries: seq<Entry>, id: ProjectId)
    requires !HasProject(entries, id)
    ensures LastEntry(entries, id).None?
    decreases |entries|
  {
    if entries != [] {
      NoLastEntry(entries[..|entries| - 1], id);
    }
  }

  /** A change of a project that exists afterwards is the change of its card. */
  lemma {:induction false} OnlyCard(env: Env, prior: seq<Entry>, next: seq<Entry>, id: ProjectId, c: CardChange)
    requires UniqueProjects(next) && id != "" && HasProject(next, id) && c in CardChanges(env, prior, next) && c.projectId == id
    ensures CardChangeOf(env, prior, FirstOf(next, id)) == Some(c)
  {
    if e :| e in next && e.projectId != "" && CardChangeOf(env, prior, e) == Some(c) {
      assert e == FirstOf(next, id);
    }
  }

  /** The guards are about different projects and fit, and every change has a guard. */
  ghost predicate AllGuarded(env: Env, v: World, s: Snapshot, guards: seq<Guard>) {
    && (forall i, j :: 0 <= i < j < |guards| ==> guards[i].projectId != guards[j].projectId)
    && (forall i :: 0 <= i < |guards| ==> GuardFits(env, v, s, guards[i]))
    && (forall c :: c in ChangesOf(env, v, s) ==> Guarded(guards, c.projectId))
  }

  /** A guarded publication goes through exactly when a publication would and everything is guarded. */
  lemma {:induction false} GuardedEndsIff(env: Env, v: World, s: Snapshot, expected: Hash, m: Metadata, guards: seq<Guard>, now: string)
    requires EnvOk(env) && Inv(env, true, v)
    ensures var p := PlanOf(env, v.disk, PublishGuarded(s, expected, m, guards), now);
            var fits := v.disk.active == expected && MetadataFits(m.(kind := Maintenance)) && GenerationFits(env, s, expected)
                        && AllGuarded(env, v, s, guards);
            && (p.out.Published? <==> fits && PublishId(env, expected, env.hash(s), m.(kind := Maintenance)) !in v.disk.intents)
            && (p.out.Published? || p.out.Failed?)
            && (!fits ==> p.writes == [])
  {
    ChangesAre(env, v, s);
    PlanEndsIff(env, v, s, expected, m.(kind := Maintenance), now);
    forall i | 0 <= i < |guards|
      ensures GuardHolds(env, v.disk, s, guards[i]) <==> GuardFits(env, v, s, guards[i])
    {
      GuardMeans(env, v, s, guards[i]);
    }
    CoverMeans(guards, ChangesOf(env, v, s));
  }

  lemma {:induction false} CoverMeans(guards: seq<Guard>, changes: set<CardChange>)
    ensures GuardsCover(guards, changes) <==> forall c :: c in changes ==> Guarded(guards, c.projectId)
  {
  }
}
