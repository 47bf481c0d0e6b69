/** The catalog directory as a mutable object. Every method reads and writes the directory step by
    step, and is proved to leave behind exactly what its plan leaves when it is cut off at the
    write that failed. */
module CatalogStore {
  import opened Faults
  import opened Options
  import opened CatalogTypes
  import opened CatalogJournal
  import opened CatalogInvariant
  import opened CatalogSteps
  import opened CatalogVersions

  /** `u` is what the plan `p` leaves of `v` when its last write failed or, unless a write failed,
      when it ran to its end with the outcome `out`. */
  ghost predicate Ran(v: World, u: World, p: Plan, out: Outcome) {
    && (exists k :: 0 <= k <= |p.writes| && u == ApplyAll(v, p.writes[..k]))
    && (out != Failed(WriteFailed) ==> u == ApplyAll(v, p.writes) && out == p.out)
  }

  lemma {:induction false} RanAll(v: World, u: World, p: Plan)
    requires u == ApplyAll(v, p.writes)
    ensures Ran(v, u, p, p.out)
  {
    assert p.writes[..|p.writes|] == p.writes;
  }

  lemma {:induction false} RanNothing(v: World, out: Outcome)
    ensures Ran(v, v, Plan([], out), out)
  {
    RanAll(v, v, Plan([], out));
  }

  /** A plan that failed at a write has been cut off, and so has every longer plan. */
  lemma {:induction false} RanCut(v: World, done: seq<Write>, u: World, w: World, q: Plan, plan: Plan)
    requires u == ApplyAll(v, done) && Ran(u, w, q, Failed(WriteFailed)) && done + q.writes <= plan.writes
    ensures Ran(v, w, plan, Failed(WriteFailed))
  {
    var k :| 0 <= k <= |q.writes| && w == ApplyAll(u, q.writes[..k]);
    assert plan.writes[..|done| + k] == done + q.writes[..k];
    ApplyAllConcat(v, done, q.writes[..k]);
  }

  /** A first plan that failed, whatever was to follow it. */
  lemma {:induction false} RanFailed(v: World, u: World, p: Plan, q: Plan, out: Outcome)
    requires Ran(v, u, p, out) && out.Failed?
    ensures Ran(v, u, Then(p, q), out)
  {
    if out == Failed(WriteFailed) {
      assert [] + p.writes == p.writes;
      RanCut(v, [], v, u, p, Then(p, q));
    }
  }

  /** One plan after another. */
  lemma {:induction false} RanThen(v: World, u: World, w: World, p: Plan, q: Plan, out: Outcome)
    requires Ran(v, u, p, p.out) && !p.out.Failed? && Ran(u, w, q, out)
    ensures Ran(v, w, Then(p, q), out)
  {
    if out == Failed(WriteFailed) {
      RanCut(v, p.writes, u, w, q, Then(p, q));
    } else {
      ApplyAllConcat(v, p.writes, q.writes);
      RanAll(v, w, Then(p, q));
    }
  }

  lemma {:induction false} RanDisk(v: World, u: World, p: Plan)
    requires Ran(v, u, p, p.out) && p.out != Failed(WriteFailed)
    ensures u == ApplyAll(v, p.writes) && u.disk == ApplyDiskAll(v.disk, p.writes)
  {
    ApplyAllDisk(v, p.writes);
  }

  /** Whatever a method leaves behind is a step of the run semantics. */
  lemma {:induction false} RanIsStep(env: Env, v: World, u: World, q: Request, now: string, out: Outcome)
    requires EnvOk(env) && Ran(v, u, PlanOf(env, v.disk, q, now), out)
    ensures exists done :: u == Step(env, v, Event(q, now, done))
  {
    var p := PlanOf(env, v.disk, q, now);
    var k :| 0 <= k <= |p.writes| && u == ApplyAll(v, p.writes[..k]);
    assert Taken(p, k) == p.writes[..k];
    assert u == Step(env, v, Event(q, now, k));
  }

  class Store {
    const env: Env
    var disk: Disk
    var faults: seq<Fault>
    ghost var moves: seq<Move>
    ghost var saves: set<OpId>

    ghost function Now(): (w: World)
      reads this
    {
      World(disk, moves, saves)
    }

    constructor (env: Env, disk: Disk, faults: seq<Fault>)
      ensures this.env == env && this.disk == disk && this.faults == faults && moves == [] && saves == {}
    {
      this.env, this.disk, this.faults, moves, saves := env, disk, faults, [], {};
    }

    /** One durable write. */
    method Put(w: Write) returns (ok: bool)
      modifies this
      ensures ok ==> Now() == Apply(old(Now()), w)
      ensures !ok ==> Now() == old(Now()) || Now() == Apply(old(Now()), w)
      ensures old(faults) == [] ==> ok && faults == []
    {
      var fault := if faults == [] then Works else faults[0];
      faults := if faults == [] then [] else faults[1..];
      if fault == LostBefore {
        return false;
      }
      moves := if w.MovePointer? then moves + [Move(w.op, disk.active, w.target)] else moves;
      saves := if w.PutPolicy? && w.savedBy != "" then saves + {w.savedBy} else saves;
      disk := ApplyDisk(disk, w);
      return fault == Works;
    }

    /** Performs a plan of at most one write. */
    method PutOne(ghost p: Plan, w: Write) returns (ok: bool)
      requires p.writes == [w]
      modifies this
      ensures ok ==> Now() == ApplyAll(old(Now()), p.writes)
      ensures ok ==> Ran(old(Now()), Now(), p, p.out)
      ensures !ok ==> Ran(old(Now()), Now(), p, Failed(WriteFailed))
      ensures old(faults) == [] ==> ok && faults == []
    {
      ghost var v := Now();
      ok := Put(w);
      assert ApplyAll(v, [w]) == Apply(v, w) by { assert [w][1..] == []; }
      assert p.writes[..0] == [] && p.writes[..1] == [w];
    }

    method WriteIntent(r: Record) returns (out: Outcome)
      modifies this
      ensures Ran(old(Now()), Now(), PlanIntent(old(disk), r), out)
      ensures old(faults) == [] ==> out != Failed(WriteFailed) && faults == []
    {
      if r.operationId in disk.intents {
        out := if SameIntent(disk.intents[r.operationId], r) then Continue else Failed(IntentExists);
        RanAll(Now(), Now(), PlanIntent(disk, r));
        return;
      }
      var ok := PutOne(PlanIntent(disk, r), PutIntent(r));
      out := if ok then Continue else Failed(WriteFailed);
    }

    method WriteReceipt(r: Record) returns (out: Outcome)
      modifies this
      ensures Ran(old(Now()), Now(), PlanReceipt(old(disk), r), out)
      ensures old(faults) == [] ==> out != Failed(WriteFailed) && faults == []
    {
      ghost var p := PlanReceipt(disk, r);
      if !ValidRecord(r, r.operationId) {
        out := Failed(InvalidJournal);
        RanAll(Now(), Now(), p);
        return;
      }
      if r.operationId in disk.receipts {
        out := if disk.receipts[r.operationId] == r then Continue else Failed(ReceiptExists);
        RanAll(Now(), Now(), p);
        return;
      }
      var ok := PutOne(p, PutReceipt(r));
      out := if ok then Continue else Failed(WriteFailed);
    }

    method StoreSnapshot(h: Hash, s: Snapshot) returns (out: Outcome)
      modifies this
      ensures Ran(old(Now()), Now(), PlanSnapshot(old(disk), h, s), out)
      ensures old(faults) == [] ==> out != Failed(WriteFailed) && faults == []
    {
      ghost var p := PlanSnapshot(disk, h, s);
      if h in disk.snapshots {
        out := if disk.snapshots[h] == s then Continue else Failed(SnapshotExists);
        RanAll(Now(), Now(), p);
        return;
      }
      var ok := PutOne(p, PutSnapshot(h, s));
      out := if ok then Continue else Failed(WriteFailed);
    }

    // -------------------------------------------------------------- reading

    /** The parent walk from the active generation. */
    method ReadAncestry(from: Hash) returns (chain: Option<seq<Hash>>)
      ensures chain == Walk(env, disk, from, [])
    {
      var cursor, seen := from, [];
      while cursor != "" && cursor !in seen
        invariant Walk(env, disk, cursor, seen) == Walk(env, disk, from, [])
        decreases disk.snapshots.Keys - (set h | h in seen)
      {
        var loaded := Load(env, disk, cursor);
        if loaded.None? {
          return None;
        }
        assert cursor in disk.snapshots.Keys - (set h | h in seen);
        assert cursor in (set h | h in seen + [cursor]);
        cursor, seen := loaded.value.parent, seen + [cursor];
      }
      return Some(seen);
    }

    /** Whether `target` ever was the active generation. */
    method ReadMembership(target: Hash) returns (found: Membership)
      ensures found == InAncestry(env, disk, disk.active, target, [])
    {
      var cursor, seen := disk.active, [];
      while cursor != ""
        invariant InAncestry(env, disk, cursor, target, seen) == InAncestry(env, disk, disk.active, target, [])
        decreases disk.snapshots.Keys - (set h | h in seen), if cursor in seen then 0 else 1
      {
        if cursor in seen {
          return WalkBroken;
        }
        var loaded := Load(env, disk, cursor);
        if loaded.None? {
          return WalkBroken;
        }
        if cursor == target {
          return Found;
        }
        assert cursor in disk.snapshots.Keys - (set h | h in seen);
        assert cursor in (set h | h in seen + [cursor]);
        cursor, seen := loaded.value.parent, seen + [cursor];
      }
      return Missing;
    }

    // -------------------------------------------------------------- recovery

    /** Decides what happened to one announced operation, and records it. */
    method Settle(chain: seq<Hash>, skip: OpId, id: OpId) returns (x: Resolution, ok: bool)
      requires id in disk.intents
      modifies this
      ensures x == ResolveOne(env, old(disk), chain, skip, id)
      ensures !x.Resolve? ==> ok && Now() == old(Now())
      ensures x.Resolve? && ok ==> Now() == Apply(old(Now()), PutReceipt(x.receipt))
      ensures !ok ==> Now() == old(Now()) || (x.Resolve? && Now() == Apply(old(Now()), PutReceipt(x.receipt)))
      ensures old(faults) == [] ==> ok && faults == []
    {
      ok := true;
      var r := disk.intents[id];
      if !ValidRecord(r, id) {
        return Broken, true;
      }
      if id == skip {
        return Settled, true;
      }
      if id in disk.receipts {
        x := if ValidRecord(disk.receipts[id], id) && ValidReceipt(r, disk.receipts[id]) then Settled else Broken;
        return;
      }
      if r.kind == PolicyOp || r.kind == HoldOp {
        x := ResolvePolicy(disk, r);
      } else if r.kind == PublishOp || r.kind == RestoreOp {
        x := ResolvePointer(disk, chain, r);
      } else {
        x := Unclear;
      }
      if x.Resolve? {
        ok := Put(PutReceipt(x.receipt));
      }
    }

    /** Settles every announced operation that has no receipt. */
    method Recover(skip: OpId) returns (out: Outcome)
      requires EnvOk(env)
      modifies this
      ensures Ran(old(Now()), Now(), PlanReconcile(env, old(disk), skip), out)
      ensures old(faults) == [] ==> out != Failed(WriteFailed) && faults == []
    {
      ghost var v, plan := Now(), PlanReconcile(env, disk, skip);
      if LoadActive(env, disk).ActiveBroken? {
        RanAll(v, v, plan);
        return Failed(Unreadable);
      }
      var chain := ReadAncestry(disk.active);
      if chain.None? {
        RanAll(v, v, plan);
        return Failed(Unreadable);
      }
      var ids := env.listing(disk.intents.Keys);
      assert Lists(ids, disk.intents.Keys);
      out := SettleAll(chain.value, skip, ids);
    }

    /** The loop over the journal. The directory is read again for every operation, although it changes
        under way. */
    method SettleAll(chain: seq<Hash>, skip: OpId, ids: seq<OpId>) returns (out: Outcome)
      requires (forall id :: id in ids ==> id in disk.intents) && Unsettled(disk, disk, ids)
      modifies this
      ensures Ran(old(Now()), Now(), ReconcileIds(env, old(disk), chain, skip, ids, false), out)
      ensures old(faults) == [] ==> out != Failed(WriteFailed) && faults == []
    {
      ghost var v, plan := Now(), ReconcileIds(env, disk, chain, skip, ids, false);
      ghost var done: seq<Write> := [];
      var i, unclear := 0, false;
      assert ids[0..] == ids && [] + plan.writes == plan.writes;
      while i < |ids|
        invariant 0 <= i <= |ids|
        invariant Left(env, v.disk, chain, skip, ids[i..], unclear, plan, done) && Now() == ApplyAll(v, done)
        invariant Unsettled(v.disk, disk, ids[i..])
        invariant old(faults) == [] ==> faults == []
      {
        var id := ids[i];
        assert ids[i..][0] == id && ids[i..][1..] == ids[i + 1..];
        assert id in ids;
        ghost var u := Now();
        var x, ok := Settle(chain, skip, id);
        NextSettled(env, v, u, Now(), chain, skip, ids[i..], unclear, plan, done, x, ok);
        if !ok {
          return Failed(WriteFailed);
        }
        if x == Broken {
          return Failed(InvalidJournal);
        }
        i, unclear, done := i + 1, unclear || x == Unclear, done + Settling(x);
      }
      assert ids[i..] == [] && done + [] == done;
      RanAll(v, Now(), plan);
      return if unclear then Failed(Ambiguous) else Reconciled;
    }

    // -------------------------------------------------------------- publication

    /** The cards that `next` adds, alters or removes. */
    method ReadChanges(parent: Hash, next: Snapshot) returns (changes: Option<set<CardChange>>)
      ensures changes == SnapshotChanges(env, disk, parent, next)
    {
      var prior: seq<Entry> := [];
      if parent != "" {
        var loaded := Load(env, disk, parent);
        if loaded.None? {
          return None;
        }
        prior := loaded.value.entries;
      }
      var known := IndexEntries(prior);
      var out, seen := ReadAdded(prior, next.entries, known);
      var keys := known.Keys;
      ghost var added := out;
      while keys != {}
        invariant keys <= known.Keys
        invariant out == added + Dropped(env, known, known.Keys - keys, seen)
        decreases |keys|
      {
        var id :| id in keys;
        keys := keys - {id};
        assert known.Keys - keys == (known.Keys - (keys + {id})) + {id};
        if id !in seen {
          out := out + {CardChange(id, env.entryHash(known[id]), "")};
        }
      }
      assert known.Keys - {} == known.Keys;
      ChangesAre(env, prior, next.entries, known, seen);
      return Some(out);
    }

    method IndexEntries(entries: seq<Entry>) returns (known: map<ProjectId, Entry>)
      ensures Indexes(known, entries)
    {
      known := map[];
      for i := 0 to |entries|
        invariant Indexes(known, entries[..i])
      {
        assert entries[..i + 1][..i] == entries[..i];
        if entries[i].projectId != "" {
          known := known[entries[i].projectId := entries[i]];
        }
      }
      assert entries[..|entries|] == entries;
    }

    method ReadAdded(prior: seq<Entry>, next: seq<Entry>, known: map<ProjectId, Entry>)
      returns (out: set<CardChange>, seen: set<ProjectId>)
      requires Indexes(known, prior)
      ensures out == Added(env, prior, next) && Mentions(seen, next)
    {
      out, seen := {}, {};
      for j := 0 to |next|
        invariant out == Added(env, prior, next[..j]) && Mentions(seen, next[..j])
      {
        var e := next[j];
        AddedNext(env, prior, next, j);
        MentionsNext(seen, next, j);
        if e.projectId == "" {
          continue;
        }
        seen := seen + {e.projectId};
        if e.projectId !in known {
          out := out + {CardChange(e.projectId, "", env.entryHash(e))};
        } else if env.entryHash(known[e.projectId]) != env.entryHash(e) {
          out := out + {CardChange(e.projectId, env.entryHash(known[e.projectId]), env.entryHash(e))};
        }
      }
      assert next[..|next|] == next;
    }

    /** Snapshot, intent, pointer, receipt. */
    method PublishBody(s: Snapshot, expected: Hash, m: Metadata, now: string) returns (out: Outcome)
      modifies this
      ensures Ran(old(Now()), Now(), PlanPublishBody(env, old(disk), s, expected, m, now), out)
      ensures old(faults) == [] ==> out != Failed(WriteFailed) && faults == []
    {
      ghost var v, stored := Now(), PlanSnapshot(disk, env.hash(s), s);
      ghost var rest := PlanStored(env, ApplyDiskAll(disk, stored.writes), s, expected, m, now);
      PublishWritesAre(env, disk, s, expected, m, now);
      out := StoreSnapshot(env.hash(s), s);
      if out.Failed? {
        RanFailed(v, Now(), stored, rest, out);
        return;
      }
      RanDisk(v, Now(), stored);
      ghost var u := Now();
      out := PublishStored(s, expected, m, now);
      RanThen(v, u, Now(), stored, rest, out);
    }

    /** The publication of a generation that is stored. */
    method PublishStored(s: Snapshot, expected: Hash, m: Metadata, now: string) returns (out: Outcome)
      modifies this
      ensures Ran(old(Now()), Now(), PlanStored(env, old(disk), s, expected, m, now), out)
      ensures old(faults) == [] ==> out != Failed(WriteFailed) && faults == []
    {
      ghost var v := Now();
      var changes := ReadChanges(expected, s);
      if changes.None? {
        RanNothing(v, Failed(Unreadable));
        return Failed(Unreadable);
      }
      var intent := PublishIntent(env, expected, env.hash(s), m, changes.value, now);
      ghost var announced, rest := PlanIntent(disk, intent), PlanInstall(disk, intent, env.hash(s));
      out := WriteIntent(intent);
      if out.Failed? {
        RanFailed(v, Now(), announced, rest, out);
        return;
      }
      ghost var u := Now();
      SameInstall(v, u, intent, env.hash(s));
      out := Install(intent, env.hash(s));
      RanThen(v, u, Now(), announced, rest, out);
    }

    /** Pointer and receipt. */
    method Install(intent: Record, h: Hash) returns (out: Outcome)
      modifies this
      ensures Ran(old(Now()), Now(), PlanInstall(old(disk), intent, h), out)
      ensures old(faults) == [] ==> out != Failed(WriteFailed) && faults == []
    {
      ghost var v, plan := Now(), PlanInstall(disk, intent, h);
      ghost var move := Plan([MovePointer(intent.operationId, h)], Continue);
      ghost var recorded := PlanReceipt(disk, AppliedReceipt(intent, h));
      var ok := PutOne(move, MovePointer(intent.operationId, h));
      if !ok {
        assert [] + move.writes == move.writes;
        RanCut(v, [], v, Now(), move, plan);
        return Failed(WriteFailed);
      }
      ghost var u := Now();
      assert u == Apply(v, MovePointer(intent.operationId, h)) by { assert move.writes[1..] == []; }
      var recording := WriteReceipt(AppliedReceipt(intent, h));
      if recording == Failed(WriteFailed) {
        RanCut(v, move.writes, u, Now(), recorded, plan);
      } else {
        ApplyAllConcat(v, move.writes, recorded.writes);
        RanAll(v, Now(), plan);
      }
      return if recording.Failed? then recording else Published(h);
    }

    /** Publication while the caller holds the exclusive lock. */
    method PublishLocked(s: Snapshot, expected: Hash, m: Metadata, skip: OpId, now: string) returns (out: Outcome)
      requires EnvOk(env)
      modifies this
      ensures Ran(old(Now()), Now(), PlanPublish(env, old(disk), s, expected, m, skip, now), out)
      ensures old(faults) == [] ==> out != Failed(WriteFailed) && faults == []
    {
      ghost var v := Now();
      if !PublishInputOk(env, s, expected, m) {
        RanNothing(v, Failed(InvalidInput));
        return Failed(InvalidInput);
      }
      if LoadActive(env, disk).ActiveBroken? {
        RanNothing(v, Failed(Unreadable));
        return Failed(Unreadable);
      }
      if disk.active != expected {
        RanNothing(v, Failed(Conflict));
        return Failed(Conflict);
      }
      ghost var rec := PlanReconcile(env, disk, skip);
      ghost var body := PlanPublishBody(env, ApplyDiskAll(disk, rec.writes), s, expected, m, now);
      out := Recover(skip);
      if out.Failed? {
        RanFailed(v, Now(), rec, body, out);
        return;
      }
      RanDisk(v, Now(), rec);
      ghost var u := Now();
      out := PublishBody(s, expected, m, now);
      RanThen(v, u, Now(), rec, body, out);
    }

    method Publish(s: Snapshot, expected: Hash, m: Metadata, now: string) returns (out: Outcome)
      requires EnvOk(env)
      modifies this
      ensures Ran(old(Now()), Now(), PlanOf(env, old(disk), Request.Publish(s, expected, m), now), out)
      ensures old(faults) == [] ==> out != Failed(WriteFailed) && faults == []
    {
      var kind := if m.kind == NoKind then Manual else m.kind;
      out := PublishLocked(s, expected, m.(kind := kind), "", now);
    }

    method CheckGuard(s: Snapshot, g: Guard) returns (ok: bool)
      ensures ok <==> GuardHolds(env, disk, s, g)
    {
      var current := ActiveEntries(env, disk);
      var at := EntryIndex(current, g.projectId);
      if at < 0 {
        return false;
      }
      var policy := LoadPolicy(disk, g.projectId);
      if policy.None? || policy.value.hold || policy.value.revision != g.revision
         || env.entryHash(current[at]) != g.currentEntryHash {
        return false;
      }
      var next := EntryIndex(s.entries, g.projectId);
      if next < 0 || !SameStableProjectIdentity(current[at], s.entries[next])
         || !SameReviewSourceIdentity(current[at], s.entries[next]) {
        return false;
      }
      return !policy.value.historicalOnly || s.entries[next].desc.uses == [];
    }

    /** Whether every guard still holds, and no project is guarded twice. */
    method CheckGuards(s: Snapshot, guards: seq<Guard>) returns (guarded: Option<set<ProjectId>>)
      ensures guarded.Some? <==> GuardsDistinct(guards) && forall i :: 0 <= i < |guards| ==> GuardHolds(env, disk, s, guards[i])
      ensures guarded.Some? ==> guarded.value == GuardedProjects(guards)
    {
      var seen: set<ProjectId> := {};
      for i := 0 to |guards|
        invariant seen == GuardedProjects(guards[..i])
        invariant GuardsDistinct(guards[..i])
        invariant forall j :: 0 <= j < i ==> GuardHolds(env, disk, s, guards[j])
      {
        var g := guards[i];
        NextGuard(guards, i);
        if g.projectId in seen {
          return None;
        }
        seen := seen + {g.projectId};
        var ok := CheckGuard(s, g);
        if !ok {
          return None;
        }
      }
      assert guards[..|guards|] == guards;
      return Some(seen);
    }

    method PublishWithPolicyGuard(s: Snapshot, expected: Hash, m: Metadata, guards: seq<Guard>, now: string) returns (out: Outcome)
      requires EnvOk(env)
      modifies this
      ensures Ran(old(Now()), Now(), PlanGuarded(env, old(disk), s, expected, m, guards, now), out)
      ensures old(faults) == [] ==> out != Failed(WriteFailed) && faults == []
    {
      ghost var v := Now();
      if LoadActive(env, disk).ActiveBroken? {
        RanNothing(v, Failed(Unreadable));
        return Failed(Unreadable);
      }
      if disk.active != expected {
        RanNothing(v, Failed(Conflict));
        return Failed(Conflict);
      }
      var guarded := CheckGuards(s, guards);
      if guarded.None? {
        RanNothing(v, Failed(Conflict));
        return Failed(Conflict);
      }
      var changes := ReadChanges(expected, s);
      if changes.None? {
        RanNothing(v, Failed(Unreadable));
        return Failed(Unreadable);
      }
      CoverIsSubset(guards, changes.value);
      if exists c :: c in changes.value && c.projectId !in guarded.value {
        RanNothing(v, Failed(Unguarded));
        return Failed(Unguarded);
      }
      out := PublishLocked(s, expected, m.(kind := Maintenance), "", now);
    }

    // -------------------------------------------------------------- policies

    /** Saves a policy under an announced operation, and records it. */
    method SavePolicy(intent: Record, p: Policy) returns (out: Outcome)
      requires PolicyKind(intent.kind)
      modifies this
      ensures Ran(old(Now()), Now(), PlanSave(old(disk), intent, p), out)
      ensures old(faults) == [] ==> out != Failed(WriteFailed) && faults == []
    {
      ghost var v, plan := Now(), PlanSave(disk, intent, p);
      ghost var announced := PlanIntent(disk, intent);
      out := WriteIntent(intent);
      SaveWritesAre(disk, intent, p);
      if out.Failed? {
        if out == Failed(WriteFailed) {
          assert [] + announced.writes == announced.writes;
          RanCut(v, [], v, Now(), announced, plan);
        }
        return;
      }
      RanDisk(v, Now(), announced);
      AnnouncedEffect(v, intent);
      ghost var u := Now();
      out := SaveAnnounced(intent, p);
      if out == Failed(WriteFailed) {
        RanCut(v, announced.writes, u, Now(), PlanKeep(u.disk, intent, p), plan);
      } else {
        ApplyAllConcat(v, announced.writes, PlanKeep(u.disk, intent, p).writes);
        RanAll(v, Now(), plan);
      }
    }

    /** Policy file and receipt. */
    method SaveAnnounced(intent: Record, p: Policy) returns (out: Outcome)
      modifies this
      ensures Ran(old(Now()), Now(), PlanKeep(old(disk), intent, p), out)
      ensures old(faults) == [] ==> out != Failed(WriteFailed) && faults == []
    {
      ghost var v, plan := Now(), PlanKeep(disk, intent, p);
      ghost var saved := Plan([PutPolicy(intent.operationId, p)], Continue);
      ghost var recorded := PlanReceipt(disk, AppliedReceipt(intent, disk.active));
      var ok := PutOne(saved, PutPolicy(intent.operationId, p));
      if !ok {
        RanFailed(v, Now(), saved, recorded, Failed(WriteFailed));
        return Failed(WriteFailed);
      }
      assert Now() == Apply(v, PutPolicy(intent.operationId, p)) by { assert saved.writes[1..] == []; }
      ghost var u := Now();
      out := WriteReceipt(AppliedReceipt(intent, disk.active));
      RanThen(v, u, Now(), saved, recorded, out);
    }

    method SetPolicyLocked(asked: Policy, expectedEntry: Hash, expectedRevision: nat, now: string) returns (out: Outcome)
      modifies this
      ensures Ran(old(Now()), Now(), PlanPolicyBody(env, old(disk), asked, expectedEntry, expectedRevision, now), out)
      ensures old(faults) == [] ==> out != Failed(WriteFailed) && faults == []
    {
      ghost var v := Now();
      var active := LoadActive(env, disk);
      if !active.ActiveIs? {
        out := Failed(if active.ActiveAbsent? then NotFound else Unreadable);
        RanNothing(v, out);
        return;
      }
      var i := EntryIndex(active.snapshot.entries, asked.projectId);
      if i < 0 {
        RanNothing(v, Failed(NotFound));
        return Failed(NotFound);
      }
      var prior := LoadPolicy(disk, asked.projectId);
      if prior.None? {
        RanNothing(v, Failed(Unreadable));
        return Failed(Unreadable);
      }
      var h := env.entryHash(active.snapshot.entries[i]);
      if h != expectedEntry || prior.value.revision != expectedRevision {
        RanNothing(v, Failed(Conflict));
        return Failed(Conflict);
      }
      if !ReasonOk(asked.reason) {
        RanNothing(v, Failed(InvalidInput));
        return Failed(InvalidInput);
      }
      var p := asked.(revision := prior.value.revision + 1, currentEntryHash := h, updatedAt := now);
      var intent := PolicyIntent(env, active.hash, p);
      out := SavePolicy(intent, p);
      SavedIs(v, Now(), PlanSave(v.disk, intent, p), out, PolicySaved(p));
      assert PlanPolicyBody(env, v.disk, asked, expectedEntry, expectedRevision, now)
          == Saved(PlanSave(v.disk, intent, p), PolicySaved(p)) by { SaveWritesAre(v.disk, intent, p); }
      out := if out.Failed? then out else PolicySaved(p);
    }

    method SetProjectPolicy(asked: Policy, expectedEntry: Hash, expectedRevision: nat, now: string) returns (out: Outcome)
      requires EnvOk(env)
      modifies this
      ensures Ran(old(Now()), Now(), PlanSetPolicy(env, old(disk), asked, expectedEntry, expectedRevision, now), out)
      ensures old(faults) == [] ==> out != Failed(WriteFailed) && faults == []
    {
      ghost var v, rec := Now(), PlanReconcile(env, disk, "");
      if asked.projectId == "" {
        RanNothing(v, Failed(InvalidInput));
        return Failed(InvalidInput);
      }
      ghost var body := PlanPolicyBody(env, ApplyDiskAll(disk, rec.writes), asked, expectedEntry, expectedRevision, now);
      out := Recover("");
      if out.Failed? {
        RanFailed(v, Now(), rec, body, out);
        return;
      }
      RanDisk(v, Now(), rec);
      ghost var u := Now();
      out := SetPolicyLocked(asked, expectedEntry, expectedRevision, now);
      RanThen(v, u, Now(), rec, body, out);
    }

    /** Changes only the hold flag and the reason of the stored policy. */
    method SetPublicationHold(id: ProjectId, hold: bool, reason: string, expectedEntry: Hash, expectedRevision: nat, now: string)
      returns (out: Outcome)
      requires EnvOk(env)
      modifies this
      ensures Ran(old(Now()), Now(), PlanSetHold(env, old(disk), id, hold, reason, expectedEntry, expectedRevision, now), out)
      ensures old(faults) == [] ==> out != Failed(WriteFailed) && faults == []
    {
      ghost var v, rec := Now(), PlanReconcile(env, disk, "");
      if id == "" {
        RanNothing(v, Failed(InvalidInput));
        return Failed(InvalidInput);
      }
      ghost var plan := PlanSetHold(env, disk, id, hold, reason, expectedEntry, expectedRevision, now);
      out := Recover("");
      if out.Failed? {
        RanFailed(v, Now(), rec, Plan(plan.writes[|rec.writes|..], plan.out), out);
        assert rec.out.Failed? || plan.writes == rec.writes + plan.writes[|rec.writes|..];
        return;
      }
      RanDisk(v, Now(), rec);
      var p := LoadPolicy(disk, id);
      if p.None? {
        RanAll(v, Now(), plan);
        return Failed(Unreadable);
      }
      ghost var u := Now();
      var asked := p.value.(hold := hold, reason := reason);
      ghost var body := PlanPolicyBody(env, disk, asked, expectedEntry, expectedRevision, now);
      out := SetPolicyLocked(asked, expectedEntry, expectedRevision, now);
      RanThen(v, u, Now(), rec, body, out);
    }

    // -------------------------------------------------------------- restore

    /** The checks of a restore, in order; nothing is written. */
    method CheckRequest(r: RestoreRequest, now: string) returns (c: RestoreCheck)
      ensures c == CheckRestore(env, disk, r, now)
    {
      var active := LoadActive(env, disk);
      if !active.ActiveIs? {
        return RestoreStops(Failed(if active.ActiveAbsent? then NotFound else Unreadable));
      }
      var ancestor := ReadMembership(r.historicalHash);
      if ancestor == WalkBroken {
        return RestoreStops(Failed(Unreadable));
      }
      if ancestor == Missing {
        return RestoreStops(Answered(AnswerConflict, ""));
      }
      var past := Load(env, disk, r.historicalHash);
      if past.None? {
        return RestoreStops(Failed(Unreadable));
      }
      return CheckRestoreEntries(env, disk, r, now, active.snapshot, active.hash, past.value);
    }

    /** Announces the restore, then makes the project's hold durable. */
    method PutHold(r: RestoreRequest, k: RestoreWork, now: string) returns (out: Outcome)
      modifies this
      ensures Ran(old(Now()), Now(), PlanHold(env, old(disk), r, k, now), out)
      ensures old(faults) == [] ==> out != Failed(WriteFailed) && faults == []
    {
      ghost var v := Now();
      var announce, intent := RestoreIntent(env, disk.active, r, k, now), HoldIntent(env, disk.active, r, k, now);
      ghost var announced := PlanIntent(disk, announce);
      ghost var saved := PlanSave(ApplyDiskAll(disk, announced.writes), intent, HeldPolicy(env, r, k, now));
      HoldIsThen(env, v, r, k, now);
      out := WriteIntent(announce);
      if out.Failed? {
        RanFailed(v, Now(), announced, saved, out);
        return;
      }
      RanDisk(v, Now(), announced);
      ghost var u := Now();
      out := SavePolicy(intent, HeldPolicy(env, r, k, now));
      RanThen(v, u, Now(), announced, saved, out);
    }

    /** The restore proper: hold, publish, settle the policy. */
    method RestoreChecked(r: RestoreRequest, k: RestoreWork, now: string) returns (out: Outcome)
      requires EnvOk(env)
      modifies this
      ensures Ran(old(Now()), Now(), PlanRestoreBody(env, old(disk), r, k, now), out)
      ensures old(faults) == [] ==> out != Failed(WriteFailed) && faults == []
    {
      ghost var v := Now();
      var active, settled := disk.active, HeldPolicy(env, r, k, now).(currentEntryHash := env.entryHash(k.restored));
      ghost var held := PlanHold(env, disk, r, k, now);
      ghost var published := PlanPublish(env, ApplyDiskAll(disk, held.writes), k.next, disk.active, RestoreMetadata(env, r),
                                         r.operationId, now);
      ghost var settle := Plan([PutPolicy("", settled)], Answered(AnswerRestored, k.target));
      RestoreBodyShape(env, disk, r, k, now);
      out := PutHold(r, k, now);
      if out.Failed? {
        RanFailed(v, Now(), held, Then(published, settle), out);
        return;
      }
      RanDisk(v, Now(), held);
      ghost var v1 := Now();
      out := PublishLocked(k.next, active, RestoreMetadata(env, r), r.operationId, now);
      if out.Failed? {
        RanFailed(v1, Now(), published, settle, out);
        RanThen(v, v1, Now(), held, Then(published, settle), out);
        return;
      }
      RanDisk(v1, Now(), published);
      ghost var v2 := Now();
      var ok := PutOne(settle, PutPolicy("", settled));
      out := if ok then Answered(AnswerRestored, k.target) else Failed(WriteFailed);
      RanThen(v1, v2, Now(), published, settle, out);
      RanThen(v, v1, Now(), held, Then(published, settle), out);
    }

    method Restore(r: RestoreRequest, now: string) returns (out: Outcome)
      requires EnvOk(env)
      modifies this
      ensures Ran(old(Now()), Now(), PlanRestore(env, old(disk), r, now), out)
      ensures old(faults) == [] ==> out != Failed(WriteFailed) && faults == []
    {
      ghost var v, rec, plan := Now(), PlanReconcile(env, disk, ""), PlanRestore(env, disk, r, now);
      RestoreShape(env, disk, r, now);
      if r.operationId == "" || !ReasonOk(r.reason) {
        RanNothing(v, Failed(InvalidInput));
        return Failed(InvalidInput);
      }
      out := Recover("");
      if out.Failed? {
        RanFailed(v, Now(), rec, Plan(plan.writes[|rec.writes|..], plan.out), out);
        assert rec.out.Failed? || plan.writes == rec.writes + plan.writes[|rec.writes|..];
        return;
      }
      RanDisk(v, Now(), rec);
      var known := LoadOperation(disk, r.operationId);
      if known.LookupIs? {
        RanAll(v, Now(), plan);
        return RecordedAnswer(env, r, known.record);
      }
      var checked := CheckRequest(r, now);
      if checked.RestoreStops? {
        RanAll(v, Now(), plan);
        return checked.out;
      }
      ghost var u := Now();
      ghost var body := PlanRestoreBody(env, disk, r, checked.work, now);
      out := RestoreChecked(r, checked.work, now);
      RanThen(v, u, Now(), rec, body, out);
    }

    // -------------------------------------------------------------- versions

    /** The journal record that installed `h` for the project. */
    method ReadApplied(h: Hash, id: ProjectId) returns (found: Option<Record>)
      ensures found == FindApplied(disk, env.listing(disk.receipts.Keys), h, id)
    {
      var ids := env.listing(disk.receipts.Keys);
      var i := 0;
      assert ids[0..] == ids;
      while i < |ids|
        invariant 0 <= i <= |ids|
        invariant FindApplied(disk, ids[i..], h, id) == FindApplied(disk, ids, h, id)
      {
        assert ids[i..][0] == ids[i] && ids[i..][1..] == ids[i + 1..];
        var known := LoadOperation(disk, ids[i]);
        if known.LookupIs? && InstallsFor(known.record, h, id) {
          return Some(known.record);
        }
        i := i + 1;
      }
      return None;
    }

    method ReadVersion(h: Hash, id: ProjectId) returns (x: Option<Version>)
      ensures x == VersionAt(env, disk, h, id)
    {
      var loaded := Load(env, disk, h);
      if loaded.None? {
        return None;
      }
      var s := loaded.value;
      var i := EntryIndex(s.entries, id);
      if i < 0 {
        return None;
      }
      var e := s.entries[i];
      var operation := ReadApplied(h, id);
      var diff: seq<string> := [];
      var parent := Load(env, disk, s.parent);
      if parent.Some? {
        var j := EntryIndex(parent.value.entries, id);
        diff := if j >= 0 then EntryDiff(parent.value.entries[j].desc, e.desc) else ["created"];
      } else if s.parent == "" {
        diff := ["created"];
      }
      if diff == [] {
        return None;
      }
      return Some(Version(h, s.parent, s.version, s.createdAt, env.entryHash(e), diff, operation));
    }

    /** One page of versions, newest first, after a recovery. */
    method ListVersions(id: ProjectId, cursor: Hash, limit: int) returns (page: PageResult)
      requires EnvOk(env)
      modifies this
      ensures limit < 1 || limit > MAX_VERSION_PAGE ==> Now() == old(Now()) && page == PageFailed(InvalidInput)
      ensures 1 <= limit <= MAX_VERSION_PAGE ==>
                exists out :: Ran(old(Now()), Now(), PlanReconcile(env, old(disk), ""), out)
                              && (if out.Failed? then page == PageFailed(out.error) else page == PageOf(env, disk, id, cursor, limit))
    {
      if limit < 1 || limit > MAX_VERSION_PAGE {
        return PageFailed(InvalidInput);
      }
      var out := Recover("");
      if out.Failed? {
        return PageFailed(out.error);
      }
      if id == "" {
        return PageFailed(InvalidInput);
      }
      var active := LoadActive(env, disk);
      if !active.ActiveIs? {
        return PageFailed(if active.ActiveAbsent? then NotFound else Unreadable);
      }
      var hashes := ReadAncestry(active.hash);
      if hashes.None? {
        return PageFailed(Unreadable);
      }
      page := ReadPage(hashes.value, id, cursor, limit);
    }

    method ReadPage(hashes: seq<Hash>, id: ProjectId, cursor: Hash, limit: nat) returns (page: PageResult)
      requires limit >= 1
      ensures page == PageFrom(env, disk, hashes, id, cursor, limit)
    {
      var start := 0;
      if cursor != "" {
        start := FindCursor(hashes, cursor);
        if start == |hashes| {
          return PageFailed(InvalidInput);
        }
        start := start + 1;
      }
      var end := Min(start + limit, |hashes|);
      var versions := ReadVersions(hashes[start..end], id);
      return PageIs(versions, if end < |hashes| then hashes[end - 1] else "");
    }

    method FindCursor(hashes: seq<Hash>, cursor: Hash) returns (at: nat)
      ensures at == IndexOf(hashes, cursor)
    {
      at := 0;
      while at < |hashes| && hashes[at] != cursor
        invariant 0 <= at <= |hashes| && cursor !in hashes[..at]
      {
        assert hashes[..at + 1] == hashes[..at] + [hashes[at]];
        at := at + 1;
      }
      FirstIndex(hashes, cursor, at);
    }

    method ReadVersions(hashes: seq<Hash>, id: ProjectId) returns (versions: seq<Version>)
      ensures versions == Versions(env, disk, hashes, id)
    {
      versions := [];
      for i := 0 to |hashes|
        invariant versions == Collect(VersionOf(env, disk, id), hashes[..i])
      {
        assert hashes[..i + 1] == hashes[..i] + [hashes[i]];
        CollectLast(VersionOf(env, disk, id), hashes[..i], hashes[i]);
        var x := ReadVersion(hashes[i], id);
        versions := versions + (match x case None => [] case Some(y) => [y]);
      }
      assert hashes[..|hashes|] == hashes;
    }
  }

  lemma {:induction false} FirstIndex(hashes: seq<Hash>, h: Hash, i: nat)
    requires i <= |hashes| && h !in hashes[..i] && (i < |hashes| ==> hashes[i] == h)
    ensures IndexOf(hashes, h) == i
  {
    if i > 0 {
      assert hashes[..i][0] == hashes[0];
      assert hashes[1..][..i - 1] == hashes[..i][1..];
      FirstIndex(hashes[1..], h, i - 1);
    }
  }

  lemma {:induction false} HoldIsThen(env: Env, v: World, r: RestoreRequest, k: RestoreWork, now: string)
    ensures var announced := PlanIntent(v.disk, RestoreIntent(env, v.disk.active, r, k, now));
            var d := ApplyDiskAll(v.disk, announced.writes);
            var intent := HoldIntent(env, v.disk.active, r, k, now);
            PlanHold(env, v.disk, r, k, now) == Then(announced, PlanSave(d, intent, HeldPolicy(env, r, k, now)))
            && (!announced.out.Failed? ==> d.active == v.disk.active)
  {
    var announced := PlanIntent(v.disk, RestoreIntent(env, v.disk.active, r, k, now));
    if !announced.out.Failed? {
      AnnouncedEffect(v, RestoreIntent(env, v.disk.active, r, k, now));
      ApplyAllDisk(v, announced.writes);
      var d := ApplyDiskAll(v.disk, announced.writes);
      var intent := HoldIntent(env, v.disk.active, r, k, now);
      SaveWritesAre(d, intent, HeldPolicy(env, r, k, now));
      var holding := PlanIntent(d, intent);
      if !holding.out.Failed? {
        var tail := PlanReceipt(d, AppliedReceipt(intent, d.active)).writes;
        var put := [PutPolicy(intent.operationId, HeldPolicy(env, r, k, now))];
        assert announced.writes + (holding.writes + put + tail) == announced.writes + holding.writes + put + tail;
      }
    }
  }

  /** A completed policy save is answered with `answer`. */
  ghost function Saved(p: Plan, answer: Outcome): Plan {
    if p.out.Failed? then p else Plan(p.writes, answer)
  }

  lemma {:induction false} SavedIs(v: World, u: World, p: Plan, out: Outcome, answer: Outcome)
    requires Ran(v, u, p, out) && !answer.Failed?
    ensures Ran(v, u, Saved(p, answer), if out.Failed? then out else answer)
  {
  }

  lemma {:induction false} SaveWritesAre(d: Disk, intent: Record, p: Policy)
    ensures var announced, recorded := PlanIntent(d, intent), PlanReceipt(d, AppliedReceipt(intent, d.active));
            && (announced.out.Failed? ==> announced.writes == [])
            && PlanSave(d, intent, p) == if announced.out.Failed? then announced
                 else Plan(announced.writes + [PutPolicy(intent.operationId, p)] + recorded.writes, recorded.out)
  {
    var announced, recorded := PlanIntent(d, intent), PlanReceipt(d, AppliedReceipt(intent, d.active));
    assert announced.writes + ([PutPolicy(intent.operationId, p)] + recorded.writes)
        == announced.writes + [PutPolicy(intent.operationId, p)] + recorded.writes;
  }

  ghost function GuardedProjects(guards: seq<Guard>): set<ProjectId> {
    set i | 0 <= i < |guards| :: guards[i].projectId
  }

  lemma {:induction false} NextGuard(guards: seq<Guard>, i: nat)
    requires i < |guards| && GuardsDistinct(guards[..i])
    ensures GuardedProjects(guards[..i + 1]) == GuardedProjects(guards[..i]) + {guards[i].projectId}
    ensures guards[i].projectId in GuardedProjects(guards[..i]) ==> !GuardsDistinct(guards)
    ensures guards[i].projectId !in GuardedProjects(guards[..i]) ==> GuardsDistinct(guards[..i + 1])
  {
    var before, after := guards[..i], guards[..i + 1];
    assert after == before + [guards[i]];
    assert forall j :: 0 <= j < i ==> before[j] == guards[j] == after[j];
    if guards[i].projectId in GuardedProjects(before) {
      var j :| 0 <= j < |before| && before[j].projectId == guards[i].projectId;
      assert guards[j].projectId == guards[i].projectId;
    }
  }

  lemma {:induction false} CoverIsSubset(guards: seq<Guard>, changes: set<CardChange>)
    ensures GuardsCover(guards, changes) <==> forall c :: c in changes ==> c.projectId in GuardedProjects(guards)
  {
  }

  /** Policy file and receipt of an announced change. */
  ghost function PlanKeep(d: Disk, intent: Record, p: Policy): Plan {
    Then(Plan([PutPolicy(intent.operationId, p)], Continue), PlanReceipt(d, AppliedReceipt(intent, d.active)))
  }

  /** Announce, save, record. */
  ghost function PlanSave(d: Disk, intent: Record, p: Policy): Plan {
    var announced := PlanIntent(d, intent);
    if announced.out.Failed? then announced
    else Plan(PolicyWrites(d, intent, p), PlanReceipt(d, AppliedReceipt(intent, d.active)).out)
  }

  /** The last two writes of a publication. */
  ghost function PlanInstall(d: Disk, intent: Record, h: Hash): Plan {
    var recorded := PlanReceipt(d, AppliedReceipt(intent, h));
    Plan([MovePointer(intent.operationId, h)] + recorded.writes, if recorded.out.Failed? then recorded.out else Published(h))
  }

  lemma {:induction false} SameInstall(v: World, u: World, intent: Record, h: Hash)
    requires !PlanIntent(v.disk, intent).out.Failed? && u == ApplyAll(v, PlanIntent(v.disk, intent).writes)
    ensures PlanInstall(u.disk, intent, h) == PlanInstall(v.disk, intent, h)
  {
    AnnouncedEffect(v, intent);
  }

  /** What a publication writes once its generation is stored. */
  ghost function PlanStored(env: Env, d: Disk, s: Snapshot, expected: Hash, m: Metadata, now: string): Plan {
    match SnapshotChanges(env, d, expected, s)
    case None => Plan([], Failed(Unreadable))
    case Some(changes) =>
      var intent := PublishIntent(env, expected, env.hash(s), m, changes, now);
      Then(PlanIntent(d, intent), PlanInstall(d, intent, env.hash(s)))
  }

  /** The write list of a publication, stage by stage. */
  lemma {:induction false} PublishWritesAre(env: Env, d: Disk, s: Snapshot, expected: Hash, m: Metadata, now: string)
    ensures var stored := PlanSnapshot(d, env.hash(s), s);
            PlanPublishBody(env, d, s, expected, m, now)
            == Then(stored, PlanStored(env, ApplyDiskAll(d, stored.writes), s, expected, m, now))
  {
    var h := env.hash(s);
    var stored := PlanSnapshot(d, h, s);
    var d1 := ApplyDiskAll(d, stored.writes);
    var changes := SnapshotChanges(env, d1, expected, s);
    if !stored.out.Failed? && changes.Some? {
      var intent := PublishIntent(env, expected, h, m, changes.value, now);
      var announced := PlanIntent(d1, intent);
      var move, recorded := [MovePointer(intent.operationId, h)], PlanReceipt(d1, AppliedReceipt(intent, h)).writes;
      assert stored.writes + announced.writes + move + recorded == stored.writes + (announced.writes + (move + recorded));
    }
  }

  // ---------------------------------------------------------------- card changes

  ghost function Added(env: Env, prior: seq<Entry>, next: seq<Entry>): set<CardChange> {
    set e | e in next && e.projectId != "" && CardChangeOf(env, prior, e).Some? :: CardChangeOf(env, prior, e).value
  }

  ghost function Dropped(env: Env, known: map<ProjectId, Entry>, ids: set<ProjectId>, seen: set<ProjectId>): set<CardChange>
    requires ids <= known.Keys
  {
    set id | id in ids && id !in seen :: CardChange(id, env.entryHash(known[id]), "")
  }

  /** The map that keeps the last entry of every project. */
  ghost predicate Indexes(known: map<ProjectId, Entry>, entries: seq<Entry>) {
    && (forall id :: id in known <==> id != "" && LastEntry(entries, id).Some?)
    && (forall id :: id in known ==> LastEntry(entries, id) == Some(known[id]))
  }

  ghost predicate Mentions(seen: set<ProjectId>, entries: seq<Entry>) {
    forall id :: id in seen <==> id != "" && exists k :: 0 <= k < |entries| && entries[k].projectId == id
  }

  lemma {:induction false} MentionsNext(seen: set<ProjectId>, entries: seq<Entry>, j: nat)
    requires j < |entries| && Mentions(seen, entries[..j])
    ensures Mentions(if entries[j].projectId == "" then seen else seen + {entries[j].projectId}, entries[..j + 1])
  {
    var next := if entries[j].projectId == "" then seen else seen + {entries[j].projectId};
    var before, after := entries[..j], entries[..j + 1];
    assert after[..j] == before && after[j] == entries[j];
    forall id
      ensures id in next <==> id != "" && exists k :: 0 <= k < |after| && after[k].projectId == id
    {
      if k :| 0 <= k < |before| && before[k].projectId == id {
        assert after[k].projectId == id;
      }
      if k :| 0 <= k < |after| && after[k].projectId == id {
        assert k < j ==> before[k].projectId == id;
      }
    }
  }

  lemma {:induction false} AddedNext(env: Env, prior: seq<Entry>, next: seq<Entry>, j: nat)
    requires j < |next|
    ensures var e := next[j];
            Added(env, prior, next[..j + 1]) == Added(env, prior, next[..j])
              + (if e.projectId != "" && CardChangeOf(env, prior, e).Some? then {CardChangeOf(env, prior, e).value} else {})
  {
    assert next[..j + 1] == next[..j] + [next[j]];
  }

  lemma {:induction false} LastEntryIn(es: seq<Entry>, id: ProjectId)
    ensures LastEntry(es, id).Some? ==> LastEntry(es, id).value in es && LastEntry(es, id).value.projectId == id
    ensures LastEntry(es, id).None? ==> forall i :: 0 <= i < |es| ==> es[i].projectId != id
    decreases |es|
  {
    if es != [] {
      LastEntryIn(es[..|es| - 1], id);
    }
  }

  lemma {:induction false} ChangesAre(env: Env, prior: seq<Entry>, next: seq<Entry>, known: map<ProjectId, Entry>, seen: set<ProjectId>)
    requires Indexes(known, prior) && Mentions(seen, next)
    ensures CardChanges(env, prior, next) == Added(env, prior, next) + Dropped(env, known, known.Keys, seen)
  {
    var removed := set e | e in prior && e.projectId != "" && EntryIndex(next, e.projectId) < 0
        && LastEntry(prior, e.projectId).Some? :: CardChange(e.projectId, env.entryHash(LastEntry(prior, e.projectId).value), "");
    forall c | c in Dropped(env, known, known.Keys, seen)
      ensures c in removed
    {
      var id :| id in known.Keys && id !in seen && c == CardChange(id, env.entryHash(known[id]), "");
      LastEntryIn(prior, id);
      assert known[id] in prior && EntryIndex(next, known[id].projectId) < 0;
    }
    forall c | c in removed
      ensures c in Dropped(env, known, known.Keys, seen)
    {
      var e :| e in prior && e.projectId != "" && EntryIndex(next, e.projectId) < 0
        && LastEntry(prior, e.projectId).Some? && c == CardChange(e.projectId, env.entryHash(LastEntry(prior, e.projectId).value), "");
      assert e.projectId in known.Keys && e.projectId !in seen;
    }
  }

  /** `e` is `d` with more receipts, but none for the operations in `ids`. */
  ghost predicate Unsettled(d: Disk, e: Disk, ids: seq<OpId>) {
    && e == d.(receipts := e.receipts)
    && (forall i :: 0 <= i < |ids| ==>
          if ids[i] in d.receipts then ids[i] in e.receipts && e.receipts[ids[i]] == d.receipts[ids[i]]
          else ids[i] !in e.receipts)
    && (forall i, j :: 0 <= i < j < |ids| ==> ids[i] != ids[j])
  }

  lemma {:induction false} SameAnswer(env: Env, d: Disk, e: Disk, chain: seq<Hash>, skip: OpId, ids: seq<OpId>)
    requires Unsettled(d, e, ids) && ids != [] && ids[0] in d.intents
    ensures ResolveOne(env, d, chain, skip, ids[0]) == ResolveOne(env, e, chain, skip, ids[0])
    ensures var x := ResolveOne(env, d, chain, skip, ids[0]);
            x.Resolve? ==> x.receipt.operationId == ids[0]
  {
  }

  lemma {:induction false} StillUnsettled(d: Disk, before: Disk, after: Disk, ids: seq<OpId>, x: Resolution)
    requires Unsettled(d, before, ids) && ids != []
    requires after == if x.Resolve? then ApplyDisk(before, PutReceipt(x.receipt)) else before
    requires x.Resolve? ==> x.receipt.operationId == ids[0]
    ensures Unsettled(d, after, ids[1..])
  {
    assert forall i :: 0 <= i < |ids[1..]| ==> ids[1..][i] == ids[i + 1];
  }

  /** `plan` is what was done, followed by settling `ids`. */
  ghost predicate Left(env: Env, d: Disk, chain: seq<Hash>, skip: OpId, ids: seq<OpId>, unclear: bool, plan: Plan, done: seq<Write>)
    requires forall id :: id in ids ==> id in d.intents
  {
    var rest := ReconcileIds(env, d, chain, skip, ids, unclear);
    plan == Plan(done + rest.writes, rest.out)
  }

  ghost function Settling(x: Resolution): seq<Write> {
    if x.Resolve? then [PutReceipt(x.receipt)] else []
  }

  lemma {:induction false} CutReceipt(v: World, u: World, w: World, plan: Plan, done: seq<Write>, r: Record)
    requires u == ApplyAll(v, done) && done + [PutReceipt(r)] <= plan.writes
    requires w == u || w == Apply(u, PutReceipt(r))
    ensures Ran(v, w, plan, Failed(WriteFailed))
  {
    Extended(v, done, Resolve(r));
    assert plan.writes[..|done|] == done && plan.writes[..|done| + 1] == done + [PutReceipt(r)];
  }

  lemma {:induction false} NextId(env: Env, d: Disk, chain: seq<Hash>, skip: OpId, ids: seq<OpId>, unclear: bool,
                                  plan: Plan, done: seq<Write>, x: Resolution)
    requires forall id :: id in ids ==> id in d.intents
    requires ids != [] && x == ResolveOne(env, d, chain, skip, ids[0])
    requires Left(env, d, chain, skip, ids, unclear, plan, done)
    ensures x == Broken ==> plan == Plan(done, Failed(InvalidJournal))
    ensures x.Resolve? ==> done + [PutReceipt(x.receipt)] <= plan.writes
    ensures x != Broken ==> Left(env, d, chain, skip, ids[1..], unclear || x == Unclear, plan, done + Settling(x))
  {
    var rest := ReconcileIds(env, d, chain, skip, ids, unclear);
    var next := ReconcileIds(env, d, chain, skip, ids[1..], unclear || x == Unclear);
    if x == Broken {
      assert done + [] == done;
    } else {
      assert rest.writes == Settling(x) + next.writes;
      assert done + (Settling(x) + next.writes) == done + Settling(x) + next.writes;
    }
  }

  /** One turn of the recovery loop, from `u` to `w`. */
  lemma {:induction false} NextSettled(env: Env, v: World, u: World, w: World, chain: seq<Hash>, skip: OpId, ids: seq<OpId>, unclear: bool,
                                       plan: Plan, done: seq<Write>, x: Resolution, ok: bool)
    requires ids != [] && forall id :: id in ids ==> id in v.disk.intents
    requires Left(env, v.disk, chain, skip, ids, unclear, plan, done) && u == ApplyAll(v, done) && Unsettled(v.disk, u.disk, ids)
    requires ids[0] in u.disk.intents && x == ResolveOne(env, u.disk, chain, skip, ids[0])
    requires if !x.Resolve? then ok && w == u else w == Apply(u, PutReceipt(x.receipt)) || (!ok && w == u)
    ensures !ok ==> Ran(v, w, plan, Failed(WriteFailed))
    ensures ok && x == Broken ==> Ran(v, w, plan, Failed(InvalidJournal))
    ensures ok && x != Broken ==>
              && Left(env, v.disk, chain, skip, ids[1..], unclear || x == Unclear, plan, done + Settling(x))
              && w == ApplyAll(v, done + Settling(x)) && Unsettled(v.disk, w.disk, ids[1..])
  {
    SameAnswer(env, v.disk, u.disk, chain, skip, ids);
    NextId(env, v.disk, chain, skip, ids, unclear, plan, done, x);
    if !ok {
      CutReceipt(v, u, w, plan, done, x.receipt);
    } else if x == Broken {
      RanAll(v, w, plan);
    } else {
      Extended(v, done, x);
      StillUnsettled(v.disk, u.disk, w.disk, ids, x);
    }
  }

  lemma {:induction false} Extended(v: World, done: seq<Write>, x: Resolution)
    ensures ApplyAll(v, done + Settling(x))
            == if x.Resolve? then Apply(ApplyAll(v, done), PutReceipt(x.receipt)) else ApplyAll(v, done)
  {
    ApplyAllConcat(v, done, Settling(x));
    assert Settling(x) != [] ==> Settling(x)[1..] == [];
  }
}
