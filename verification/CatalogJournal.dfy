/** The durable state of the catalog directory and, for every operation, the exact list of
    durable writes it performs.

    An operation stops at its first failing write, and everything it knows afterwards is on disk.
    So a crash, or a write that fails before or after it took effect, leaves exactly a prefix of
    the operation's writes behind: a `Plan` together with a number of completed writes describes
    every way an operation can end. */
module CatalogJournal {
  import opened Options
  import opened CatalogTypes

  type OpId = string

  datatype MetaKind = NoKind | Manual | Registration | Maintenance | RestoreMeta | PolicyMeta | OtherMeta(name: string)

  datatype Metadata = Metadata(
    operationId: OpId, kind: MetaKind, runId: string, checksum: Hash, model: string, rules: string, reason: string)

  const NO_METADATA := Metadata("", NoKind, "", "", "", "", "")

  datatype OpKind = PublishOp | RestoreOp | PolicyOp | HoldOp | OtherOp(name: string)

  datatype Status = Intent | Applied | NotApplied | Restored

  datatype CardChange = CardChange(projectId: ProjectId, oldHash: Hash, newHash: Hash)

  datatype Record = Record(
    operationId: OpId, requestHash: Hash, kind: OpKind, status: Status,
    source: Hash, target: Hash, result: Hash, createdAt: string,
    metadata: Metadata, changes: set<CardChange>, policyRevision: nat, reason: string, desiredHold: bool)

  datatype Policy = Policy(
    projectId: ProjectId, revision: nat, hold: bool, historicalOnly: bool,
    currentEntryHash: Hash, updatedAt: string, reason: string)

  datatype Guard = Guard(projectId: ProjectId, revision: nat, currentEntryHash: Hash)

  datatype RestoreRequest = RestoreRequest(
    operationId: OpId, reason: string, projectId: ProjectId,
    historicalHash: Hash, historicalEntryHash: Hash,
    expectedCurrentHash: Hash, expectedCurrentEntryHash: Hash, expectedPolicyRevision: nat)

  /** What the identifier of a generated operation id is computed from. */
  datatype OpKey = OpKey(kind: OpKind, parent: Hash, target: Hash, metadata: Metadata)

  /** The digests, the size and format rules of a snapshot, and the order of a directory listing. */
  datatype Env = Env(
    hash: Snapshot -> Hash,
    entryHash: Entry -> Hash,
    opId: OpKey -> OpId,
    requestHash: RestoreRequest -> Hash,
    policySum: (ProjectId, nat, string) -> Hash,
    wellFormed: Snapshot -> bool,
    listing: set<OpId> -> seq<OpId>)

  ghost predicate Lists(ids: seq<OpId>, s: set<OpId>) {
    && (forall id :: id in ids <==> id in s)
    && (forall i, j :: 0 <= i < j < |ids| ==> ids[i] != ids[j])
  }

  /** Digests are collision free and never the empty string; a listing names every file once. */
  ghost predicate EnvOk(env: Env) {
    && (forall s :: env.hash(s) != "")
    && (forall s, t :: env.hash(s) == env.hash(t) ==> s == t)
    && (forall e :: env.entryHash(e) != "")
    && (forall e, f :: env.entryHash(e) == env.entryHash(f) ==> e == f)
    && (forall k :: env.opId(k) != "")
    && (forall r, q :: env.requestHash(r) == env.requestHash(q) ==> r == q)
    && (forall s :: Lists(env.listing(s), s))
  }

  datatype Disk = Disk(
    active: Hash,
    snapshots: map<Hash, Snapshot>,
    intents: map<OpId, Record>,
    receipts: map<OpId, Record>,
    policies: map<ProjectId, Policy>)

  const EMPTY_DISK := Disk("", map[], map[], map[], map[])

  /** One durable write. The operation id on pointer and policy writes is history only. */
  datatype Write =
    | PutSnapshot(hash: Hash, snapshot: Snapshot)
    | PutIntent(intent: Record)
    | PutReceipt(receipt: Record)
    | MovePointer(op: OpId, target: Hash)
    | PutPolicy(savedBy: OpId, policy: Policy)

  /** History: one entry per pointer move, in order. */
  datatype Move = Move(op: OpId, source: Hash, target: Hash)

  /** The disk, together with the history of pointer moves and of policy files saved by an operation. */
  datatype World = World(disk: Disk, moves: seq<Move>, saves: set<OpId>)

  const EMPTY_WORLD := World(EMPTY_DISK, [], {})

  function ApplyDisk(d: Disk, w: Write): Disk {
    match w
    case PutSnapshot(h, s) => d.(snapshots := d.snapshots[h := s])
    case PutIntent(r) => d.(intents := d.intents[r.operationId := r])
    case PutReceipt(r) => d.(receipts := d.receipts[r.operationId := r])
    case MovePointer(_, h) => d.(active := h)
    case PutPolicy(_, p) => d.(policies := d.policies[p.projectId := p])
  }

  function ApplyDiskAll(d: Disk, ws: seq<Write>): Disk
    decreases |ws|
  {
    if ws == [] then d else ApplyDiskAll(ApplyDisk(d, ws[0]), ws[1..])
  }

  function Apply(v: World, w: Write): World {
    World(
      ApplyDisk(v.disk, w),
      if w.MovePointer? then v.moves + [Move(w.op, v.disk.active, w.target)] else v.moves,
      if w.PutPolicy? && w.savedBy != "" then v.saves + {w.savedBy} else v.saves)
  }

  function ApplyAll(v: World, ws: seq<Write>): World
    decreases |ws|
  {
    if ws == [] then v else ApplyAll(Apply(v, ws[0]), ws[1..])
  }

  lemma {:induction false} ApplyAllConcat(v: World, a: seq<Write>, b: seq<Write>)
    ensures ApplyAll(v, a + b) == ApplyAll(ApplyAll(v, a), b)
    decreases |a|
  {
    if a == [] {
      assert a + b == b;
    } else {
      assert (a + b)[0] == a[0] && (a + b)[1..] == a[1..] + b;
      ApplyAllConcat(Apply(v, a[0]), a[1..], b);
    }
  }

  lemma {:induction false} ApplyAllDisk(v: World, ws: seq<Write>)
    ensures ApplyAll(v, ws).disk == ApplyDiskAll(v.disk, ws)
    decreases |ws|
  {
    if ws != [] {
      ApplyAllDisk(Apply(v, ws[0]), ws[1..]);
    }
  }

  // ---------------------------------------------------------------- outcomes

  datatype Error =
    | Conflict | NotFound | Ambiguous | InvalidInput | InvalidJournal | Unreadable
    | SnapshotExists | IntentExists | ReceiptExists | Unguarded | WriteFailed

  datatype Answer = AnswerConflict | AnswerNotFound | AnswerSourceChanged | AnswerRecorded(status: Status) | AnswerRestored

  datatype Outcome =
    | Continue
    | Published(hash: Hash)
    | PolicySaved(policy: Policy)
    | Reconciled
    | Answered(answer: Answer, catalogHash: Hash)
    | Failed(error: Error)

  datatype Plan = Plan(writes: seq<Write>, out: Outcome)

  /** The plan `p`, followed by `q` unless `p` already failed. */
  function Then(p: Plan, q: Plan): Plan {
    if p.out.Failed? then p else Plan(p.writes + q.writes, q.out)
  }

  // ---------------------------------------------------------------- reading

  predicate Valid(env: Env, s: Snapshot) {
    env.wellFormed(s) && |s.entries| <= MAX_ENTRIES && UniqueKeys(s.entries)
  }

  /** A generation is readable only when its content is valid and matches its digest. */
  function Load(env: Env, d: Disk, h: Hash): Option<Snapshot> {
    if h in d.snapshots && Valid(env, d.snapshots[h]) && env.hash(d.snapshots[h]) == h
    then Some(d.snapshots[h]) else None
  }

  datatype ActiveResult = ActiveAbsent | ActiveBroken | ActiveIs(snapshot: Snapshot, hash: Hash)

  function LoadActive(env: Env, d: Disk): ActiveResult {
    if d.active == "" then ActiveAbsent
    else match Load(env, d, d.active)
      case None => ActiveBroken
      case Some(s) => ActiveIs(s, d.active)
  }

  /** The parent walk from `cursor`: it stops at the root or at a repeated digest, and fails on
      an unreadable generation. `seen` is what the walk has already visited. */
  ghost function Walk(env: Env, d: Disk, cursor: Hash, seen: seq<Hash>): Option<seq<Hash>>
    decreases d.snapshots.Keys - (set h | h in seen)
  {
    if cursor == "" || cursor in seen then Some(seen)
    else match Load(env, d, cursor)
      case None => None
      case Some(s) =>
        assert cursor in d.snapshots.Keys - (set h | h in seen);
        assert cursor in (set h | h in seen + [cursor]);
        Walk(env, d, s.parent, seen + [cursor])
  }

  datatype Membership = Found | Missing | WalkBroken

  /** Whether `target` is the active generation or one of its ancestors. */
  ghost function InAncestry(env: Env, d: Disk, cursor: Hash, target: Hash, seen: seq<Hash>): Membership
    decreases d.snapshots.Keys - (set h | h in seen)
  {
    if cursor == "" then Missing
    else if cursor in seen then WalkBroken
    else match Load(env, d, cursor)
      case None => WalkBroken
      case Some(s) =>
        assert cursor in d.snapshots.Keys - (set h | h in seen);
        assert cursor in (set h | h in seen + [cursor]);
        if cursor == target then Found else InAncestry(env, d, s.parent, target, seen + [cursor])
  }

  function LoadPolicy(d: Disk, id: ProjectId): Option<Policy> {
    if id == "" then None
    else if id !in d.policies then Some(Policy(id, 0, false, false, "", "", ""))
    else if d.policies[id].projectId != id then None
    else Some(d.policies[id])
  }

  // ---------------------------------------------------------------- records

  predicate SafeText(s: string, limit: nat) {
    |s| <= limit && '\0' !in s
  }

  predicate ValidMetadata(m: Metadata) {
    && !m.kind.OtherMeta?
    && SafeText(m.runId, 256) && SafeText(m.model, 256) && SafeText(m.rules, 256) && SafeText(m.reason, 256)
  }

  predicate ValidRecord(r: Record, id: OpId) {
    r.operationId == id && id != "" && ValidMetadata(r.metadata)
  }

  /** Two records of the same operation, whatever their status, result and time. */
  predicate SameIntent(a: Record, b: Record) {
    a.(status := Intent, result := "", createdAt := "") == b.(status := Intent, result := "", createdAt := "")
  }

  predicate ValidReceipt(intent: Record, receipt: Record) {
    && SameIntent(intent, receipt)
    && match receipt.status
       case Applied => receipt.result != "" && receipt.result == intent.target
       case Restored => receipt.result != "" && receipt.result == intent.target
       case NotApplied => receipt.result == ""
       case Intent => false
  }

  /** Writing an intent again is accepted only for the same operation. */
  function PlanIntent(d: Disk, r: Record): Plan {
    if r.operationId !in d.intents then Plan([PutIntent(r)], Continue)
    else if SameIntent(d.intents[r.operationId], r) then Plan([], Continue)
    else Plan([], Failed(IntentExists))
  }

  /** A receipt that exists already is accepted only when it is identical. */
  function PlanReceipt(d: Disk, r: Record): Plan {
    if !ValidRecord(r, r.operationId) then Plan([], Failed(InvalidJournal))
    else if r.operationId !in d.receipts then Plan([PutReceipt(r)], Continue)
    else if d.receipts[r.operationId] == r then Plan([], Continue)
    else Plan([], Failed(ReceiptExists))
  }

  function AppliedReceipt(intent: Record, result: Hash): Record {
    intent.(status := Applied, result := result)
  }

  // ---------------------------------------------------------------- reconciliation

  datatype Resolution = Broken | Settled | Unclear | Resolve(receipt: Record)

  /** The single element of a one-element change list. */
  function OnlyChange(changes: set<CardChange>): (c: CardChange)
    requires |changes| == 1
    ensures changes == {c}
  {
    OneElement(changes);
    var c :| c in changes; c
  }

  lemma {:induction false} OneElement(changes: set<CardChange>)
    requires |changes| == 1
    ensures exists c :: changes == {c}
  {
    var c :| c in changes;
    assert |changes - {c}| == 0;
    assert changes == {c};
  }

  /** Whether the stored policy is the one that the intent announced. */
  predicate PolicyShows(p: Policy, r: Record) {
    && p.revision == r.policyRevision && p.reason == r.reason
    && (r.kind == HoldOp ==> p.hold == r.desiredHold)
  }

  /** What one journal entry needs, given the ancestry `chain` of the active generation. */
  ghost function ResolveOne(env: Env, d: Disk, chain: seq<Hash>, skip: OpId, id: OpId): Resolution
    requires id in d.intents
  {
    var r := d.intents[id];
    if !ValidRecord(r, id) then Broken
    else if id == skip then Settled
    else if id in d.receipts then
      if ValidRecord(d.receipts[id], id) && ValidReceipt(r, d.receipts[id]) then Settled else Broken
    else match r.kind
      case OtherOp(_) => Unclear
      case PolicyOp => ResolvePolicy(d, r)
      case HoldOp => ResolvePolicy(d, r)
      case PublishOp => ResolvePointer(d, chain, r)
      case RestoreOp => ResolvePointer(d, chain, r)
  }

  function ResolvePolicy(d: Disk, r: Record): Resolution {
    if |r.changes| != 1 || d.active != r.source then Unclear
    else match LoadPolicy(d, OnlyChange(r.changes).projectId)
      case None => Broken
      case Some(p) =>
        if PolicyShows(p, r) then Resolve(r.(status := Applied, result := d.active))
        else Resolve(r.(status := NotApplied, result := ""))
  }

  function ResolvePointer(d: Disk, chain: seq<Hash>, r: Record): Resolution {
    if r.target in chain then Resolve(r.(status := Applied, result := r.target))
    else if d.active != r.source then Unclear
    else Resolve(r.(status := NotApplied, result := ""))
  }

  ghost function ReconcileIds(env: Env, d: Disk, chain: seq<Hash>, skip: OpId, ids: seq<OpId>, unclear: bool): Plan
    requires forall id :: id in ids ==> id in d.intents
  {
    if ids == [] then Plan([], if unclear then Failed(Ambiguous) else Reconciled)
    else
      match ResolveOne(env, d, chain, skip, ids[0])
      case Broken => Plan([], Failed(InvalidJournal))
      case Settled => ReconcileIds(env, d, chain, skip, ids[1..], unclear)
      case Unclear => ReconcileIds(env, d, chain, skip, ids[1..], true)
      case Resolve(receipt) =>
        var rest := ReconcileIds(env, d, chain, skip, ids[1..], unclear);
        Plan([PutReceipt(receipt)] + rest.writes, rest.out)
  }

  ghost function PlanReconcile(env: Env, d: Disk, skip: OpId): Plan
    requires EnvOk(env)
  {
    assert Lists(env.listing(d.intents.Keys), d.intents.Keys);
    match LoadActive(env, d)
    case ActiveBroken => Plan([], Failed(Unreadable))
    case _ =>
      match Walk(env, d, d.active, [])
      case None => Plan([], Failed(Unreadable))
      case Some(chain) => ReconcileIds(env, d, chain, skip, env.listing(d.intents.Keys), false)
  }

  // ---------------------------------------------------------------- publication

  /** The last entry of a project, as a map filled in order would keep it. */
  function LastEntry(entries: seq<Entry>, id: ProjectId): Option<Entry> {
    if entries == [] then None
    else if entries[|entries| - 1].projectId == id then Some(entries[|entries| - 1])
    else LastEntry(entries[..|entries| - 1], id)
  }

  function CardChangeOf(env: Env, prior: seq<Entry>, e: Entry): Option<CardChange> {
    match LastEntry(prior, e.projectId)
    case None => Some(CardChange(e.projectId, "", env.entryHash(e)))
    case Some(was) =>
      if env.entryHash(was) == env.entryHash(e) then None
      else Some(CardChange(e.projectId, env.entryHash(was), env.entryHash(e)))
  }

  /** Which project cards a publication adds, alters or removes. */
  ghost function CardChanges(env: Env, prior: seq<Entry>, next: seq<Entry>): set<CardChange> {
    (set e | e in next && e.projectId != "" && CardChangeOf(env, prior, e).Some? :: CardChangeOf(env, prior, e).value)
    + (set e | e in prior && e.projectId != "" && EntryIndex(next, e.projectId) < 0
        && LastEntry(prior, e.projectId).Some? :: CardChange(e.projectId, env.entryHash(LastEntry(prior, e.projectId).value), ""))
  }

  ghost function SnapshotChanges(env: Env, d: Disk, parent: Hash, next: Snapshot): Option<set<CardChange>> {
    if parent == "" then Some(CardChanges(env, [], next.entries))
    else match Load(env, d, parent)
      case None => None
      case Some(prior) => Some(CardChanges(env, prior.entries, next.entries))
  }

  function PublishId(env: Env, parent: Hash, target: Hash, m: Metadata): OpId {
    if m.operationId != "" then m.operationId else env.opId(OpKey(PublishOp, parent, target, m))
  }

  function PublishIntent(env: Env, parent: Hash, target: Hash, m: Metadata, changes: set<CardChange>, now: string): Record {
    var restore := m.kind == RestoreMeta;
    Record(PublishId(env, parent, target, m), if restore then m.checksum else "",
      if restore then RestoreOp else PublishOp, Intent, parent, target, "", now, m, changes, 0,
      if restore then m.reason else "", false)
  }

  function PlanSnapshot(d: Disk, h: Hash, s: Snapshot): Plan {
    if h !in d.snapshots then Plan([PutSnapshot(h, s)], Continue)
    else if d.snapshots[h] == s then Plan([], Continue)
    else Plan([], Failed(SnapshotExists))
  }

  /** The writes after a clean reconciliation: snapshot, intent, pointer, receipt. */
  ghost function PlanPublishBody(env: Env, d: Disk, s: Snapshot, expected: Hash, m: Metadata, now: string): Plan {
    var h := env.hash(s);
    var stored := PlanSnapshot(d, h, s);
    if stored.out.Failed? then stored else
    var d1 := ApplyDiskAll(d, stored.writes);
    match SnapshotChanges(env, d1, expected, s)
    case None => Plan(stored.writes, Failed(Unreadable))
    case Some(changes) =>
      var intent := PublishIntent(env, expected, h, m, changes, now);
      var announced := PlanIntent(d1, intent);
      if announced.out.Failed? then Plan(stored.writes, announced.out) else
      var move := [MovePointer(intent.operationId, h)];
      var recorded := PlanReceipt(d1, AppliedReceipt(intent, h));
      Plan(stored.writes + announced.writes + move + recorded.writes,
           if recorded.out.Failed? then recorded.out else Published(h))
  }

  predicate PublishInputOk(env: Env, s: Snapshot, expected: Hash, m: Metadata) {
    ValidMetadata(m) && Valid(env, s) && s.parent == expected && AllEligible(s.entries)
  }

  /** Publication under the exclusive lock. `skip` names an intent of the caller itself. */
  ghost function PlanPublish(env: Env, d: Disk, s: Snapshot, expected: Hash, m: Metadata, skip: OpId, now: string): Plan
    requires EnvOk(env)
  {
    if !PublishInputOk(env, s, expected, m) then Plan([], Failed(InvalidInput))
    else if LoadActive(env, d).ActiveBroken? then Plan([], Failed(Unreadable))
    else if d.active != expected then Plan([], Failed(Conflict))
    else
      var rec := PlanReconcile(env, d, skip);
      if rec.out.Failed? then rec
      else Then(rec, PlanPublishBody(env, ApplyDiskAll(d, rec.writes), s, expected, m, now))
  }

  // ---------------------------------------------------------------- guarded publication

  function ActiveEntries(env: Env, d: Disk): seq<Entry> {
    match LoadActive(env, d) case ActiveIs(s, _) => s.entries case _ => []
  }

  ghost predicate GuardsDistinct(guards: seq<Guard>) {
    forall i, j :: 0 <= i < j < |guards| ==> guards[i].projectId != guards[j].projectId
  }

  /** One guard: the project is known, not held, unchanged since the guard was taken, and the
      new entry keeps its identity and source. */
  ghost predicate GuardHolds(env: Env, d: Disk, s: Snapshot, g: Guard) {
    var current := ActiveEntries(env, d);
    var i, j := EntryIndex(current, g.projectId), EntryIndex(s.entries, g.projectId);
    && i >= 0 && j >= 0
    && LoadPolicy(d, g.projectId).Some?
    && (var p := LoadPolicy(d, g.projectId).value;
        && !p.hold && p.revision == g.revision
        && (p.historicalOnly ==> s.entries[j].desc.uses == []))
    && env.entryHash(current[i]) == g.currentEntryHash
    && SameStableProjectIdentity(current[i], s.entries[j])
    && SameReviewSourceIdentity(current[i], s.entries[j])
  }

  ghost predicate GuardsCover(guards: seq<Guard>, changes: set<CardChange>) {
    forall c :: c in changes ==> exists i :: 0 <= i < |guards| && guards[i].projectId == c.projectId
  }

  ghost function PlanGuarded(env: Env, d: Disk, s: Snapshot, expected: Hash, m: Metadata, guards: seq<Guard>, now: string): Plan
    requires EnvOk(env)
  {
    if LoadActive(env, d).ActiveBroken? then Plan([], Failed(Unreadable))
    else if d.active != expected then Plan([], Failed(Conflict))
    else if !GuardsDistinct(guards) || !(forall i :: 0 <= i < |guards| ==> GuardHolds(env, d, s, guards[i])) then
      Plan([], Failed(Conflict))
    else
      match SnapshotChanges(env, d, expected, s)
      case None => Plan([], Failed(Unreadable))
      case Some(changes) =>
        if !GuardsCover(guards, changes) then Plan([], Failed(Unguarded))
        else PlanPublish(env, d, s, expected, m.(kind := Maintenance), "", now)
  }

  // ---------------------------------------------------------------- policies

  predicate Space(c: char) {
    c in {' ', '\t', '\n', '\U{B}', '\U{C}', '\r'}
  }

  predicate Blank(s: string) {
    forall i :: 0 <= i < |s| ==> Space(s[i])
  }

  predicate ReasonOk(s: string) {
    !Blank(s) && SafeText(s, 512)
  }

  function PolicyIntent(env: Env, active: Hash, p: Policy): Record {
    var m := NO_METADATA.(kind := PolicyMeta, checksum := env.policySum(p.projectId, p.revision, p.reason));
    Record(env.opId(OpKey(PolicyOp, active, p.currentEntryHash, m)), "", PolicyOp, Intent, active, active, "",
      p.updatedAt, m, {CardChange(p.projectId, "", "")}, p.revision, p.reason, false)
  }

  /** The policy change proper, on a reconciled journal. */
  ghost function PlanPolicyBody(env: Env, d: Disk, asked: Policy, expectedEntry: Hash, expectedRevision: nat, now: string): Plan {
    match LoadActive(env, d)
    case ActiveAbsent => Plan([], Failed(NotFound))
    case ActiveBroken => Plan([], Failed(Unreadable))
    case ActiveIs(s, active) =>
      var i := EntryIndex(s.entries, asked.projectId);
      if i < 0 then Plan([], Failed(NotFound)) else
      match LoadPolicy(d, asked.projectId)
      case None => Plan([], Failed(Unreadable))
      case Some(prior) =>
        var h := env.entryHash(s.entries[i]);
        if h != expectedEntry || prior.revision != expectedRevision then Plan([], Failed(Conflict))
        else if !ReasonOk(asked.reason) then Plan([], Failed(InvalidInput))
        else
          var p := asked.(revision := prior.revision + 1, currentEntryHash := h, updatedAt := now);
          var intent := PolicyIntent(env, active, p);
          var announced := PlanIntent(d, intent);
          if announced.out.Failed? then announced else
          var recorded := PlanReceipt(d, AppliedReceipt(intent, active));
          Plan(announced.writes + [PutPolicy(intent.operationId, p)] + recorded.writes,
               if recorded.out.Failed? then recorded.out else PolicySaved(p))
  }

  ghost function PlanSetPolicy(env: Env, d: Disk, asked: Policy, expectedEntry: Hash, expectedRevision: nat, now: string): Plan
    requires EnvOk(env)
  {
    if asked.projectId == "" then Plan([], Failed(InvalidInput)) else
    var rec := PlanReconcile(env, d, "");
    if rec.out.Failed? then rec
    else Then(rec, PlanPolicyBody(env, ApplyDiskAll(d, rec.writes), asked, expectedEntry, expectedRevision, now))
  }

  /** Only the hold flag and the reason change; every other policy field is kept. */
  ghost function PlanSetHold(env: Env, d: Disk, id: ProjectId, hold: bool, reason: string,
                             expectedEntry: Hash, expectedRevision: nat, now: string): Plan
    requires EnvOk(env)
  {
    if id == "" then Plan([], Failed(InvalidInput)) else
    var rec := PlanReconcile(env, d, "");
    if rec.out.Failed? then rec else
    var d1 := ApplyDiskAll(d, rec.writes);
    match LoadPolicy(d1, id)
    case None => Plan(rec.writes, Failed(Unreadable))
    case Some(p) => Then(rec, PlanPolicyBody(env, d1, p.(hold := hold, reason := reason), expectedEntry, expectedRevision, now))
  }

  // ---------------------------------------------------------------- restore

  datatype Lookup = LookupAbsent | LookupBroken | LookupIs(record: Record)

  /** The recorded state of an operation: its receipt, or its intent when there is none. */
  function LoadOperation(d: Disk, id: OpId): Lookup {
    if id in d.receipts then
      if ValidRecord(d.receipts[id], id) && id in d.intents && ValidReceipt(d.intents[id], d.receipts[id])
      then LookupIs(d.receipts[id]) else LookupBroken
    else if id in d.intents then
      if ValidRecord(d.intents[id], id) then LookupIs(d.intents[id]) else LookupBroken
    else LookupAbsent
  }

  function RequestDigest(env: Env, r: RestoreRequest): Hash {
    env.requestHash(r.(operationId := ""))
  }

  function Prefix16(s: string): string {
    if |s| <= 16 then s else s[..16]
  }

  function RestoreMetadata(env: Env, r: RestoreRequest): Metadata {
    NO_METADATA.(operationId := r.operationId, kind := RestoreMeta, checksum := RequestDigest(env, r), reason := r.reason)
  }

  /** Everything a restore computes before its first write. */
  datatype RestoreWork = RestoreWork(
    index: nat, current: Entry, restored: Entry, next: Snapshot, target: Hash, policy: Policy)

  datatype RestoreCheck = RestoreStops(out: Outcome) | RestoreGo(work: RestoreWork)

  ghost function CheckRestore(env: Env, d: Disk, r: RestoreRequest, now: string): RestoreCheck {
    match LoadActive(env, d)
    case ActiveAbsent => RestoreStops(Failed(NotFound))
    case ActiveBroken => RestoreStops(Failed(Unreadable))
    case ActiveIs(cur, active) =>
      match InAncestry(env, d, active, r.historicalHash, [])
      case WalkBroken => RestoreStops(Failed(Unreadable))
      case Missing => RestoreStops(Answered(AnswerConflict, ""))
      case Found =>
        match Load(env, d, r.historicalHash)
        case None => RestoreStops(Failed(Unreadable))
        case Some(past) => CheckRestoreEntries(env, d, r, now, cur, active, past)
  }

  function CheckRestoreEntries(env: Env, d: Disk, r: RestoreRequest, now: string,
                                     cur: Snapshot, active: Hash, past: Snapshot): RestoreCheck {
    var i, j := EntryIndex(cur.entries, r.projectId), EntryIndex(past.entries, r.projectId);
    if i < 0 || j < 0 then RestoreStops(Answered(AnswerNotFound, "")) else
    var current, historical := cur.entries[i], past.entries[j];
    if active != r.expectedCurrentHash || env.entryHash(current) != r.expectedCurrentEntryHash
       || env.entryHash(historical) != r.historicalEntryHash then RestoreStops(Answered(AnswerConflict, ""))
    else if !SameStableProjectIdentity(current, historical) || !SameReviewSourceIdentity(current, historical) then
      RestoreStops(Answered(AnswerSourceChanged, ""))
    else match LoadPolicy(d, r.projectId)
      case None => RestoreStops(Failed(Unreadable))
      case Some(policy) =>
        if policy.revision != r.expectedPolicyRevision then RestoreStops(Answered(AnswerConflict, ""))
        else if policy.historicalOnly && historical.desc.uses != [] then RestoreStops(Answered(AnswerConflict, ""))
        else
          var restored := RestoreDescription(current, historical);
          var next := Snapshot("restore-" + Prefix16(r.operationId), active, now, cur.entries[i := restored]);
          if !Valid(env, next) then RestoreStops(Failed(InvalidInput))
          else RestoreGo(RestoreWork(i, current, restored, next, env.hash(next), policy))
  }

  function RestoreIntent(env: Env, active: Hash, r: RestoreRequest, k: RestoreWork, now: string): Record {
    Record(r.operationId, RequestDigest(env, r), RestoreOp, Intent, active, k.target, "", now, RestoreMetadata(env, r),
      {CardChange(r.projectId, env.entryHash(k.current), env.entryHash(k.restored))}, 0, r.reason, false)
  }

  function HeldPolicy(env: Env, r: RestoreRequest, k: RestoreWork, now: string): Policy {
    k.policy.(hold := true, reason := r.reason, revision := k.policy.revision + 1,
              currentEntryHash := env.entryHash(k.current), updatedAt := now)
  }

  function HoldIntent(env: Env, active: Hash, r: RestoreRequest, k: RestoreWork, now: string): Record {
    var m := NO_METADATA.(kind := PolicyMeta, checksum := RequestDigest(env, r));
    Record(env.opId(OpKey(HoldOp, active, k.target, m)), "", HoldOp, Intent, active, active, "", now, m,
      {CardChange(r.projectId, "", "")}, k.policy.revision + 1, r.reason, true)
  }

  /** The first half of a restore: announce it, then make the project's hold durable. */
  ghost function PlanHold(env: Env, d: Disk, r: RestoreRequest, k: RestoreWork, now: string): Plan {
    var announced := PlanIntent(d, RestoreIntent(env, d.active, r, k, now));
    if announced.out.Failed? then announced else
    var d1 := ApplyDiskAll(d, announced.writes);
    var intent := HoldIntent(env, d.active, r, k, now);
    var holding := PlanIntent(d1, intent);
    if holding.out.Failed? then Plan(announced.writes, holding.out) else
    var recorded := PlanReceipt(d1, AppliedReceipt(intent, d.active));
    Plan(announced.writes + holding.writes + [PutPolicy(intent.operationId, HeldPolicy(env, r, k, now))] + recorded.writes,
         recorded.out)
  }

  ghost function PlanRestoreBody(env: Env, d: Disk, r: RestoreRequest, k: RestoreWork, now: string): Plan
    requires EnvOk(env)
  {
    var held := PlanHold(env, d, r, k, now);
    if held.out.Failed? then held else
    var d1 := ApplyDiskAll(d, held.writes);
    var published := PlanPublish(env, d1, k.next, d.active, RestoreMetadata(env, r), r.operationId, now);
    if published.out.Failed? then Then(held, published)
    else
      var settled := HeldPolicy(env, r, k, now).(currentEntryHash := env.entryHash(k.restored));
      Plan(held.writes + published.writes + [PutPolicy("", settled)], Answered(AnswerRestored, k.target))
  }

  /** The answer to a request whose operation id the journal already knows. */
  function RecordedAnswer(env: Env, r: RestoreRequest, existing: Record): Outcome {
    if existing.metadata.kind != RestoreMeta || existing.requestHash != RequestDigest(env, r)
    then Answered(AnswerConflict, "")
    else Answered(AnswerRecorded(if existing.status == Applied then Restored else existing.status), existing.result)
  }

  ghost function PlanRestore(env: Env, d: Disk, r: RestoreRequest, now: string): Plan
    requires EnvOk(env)
  {
    if r.operationId == "" || !ReasonOk(r.reason) then Plan([], Failed(InvalidInput)) else
    var rec := PlanReconcile(env, d, "");
    if rec.out.Failed? then rec else
    var d1 := ApplyDiskAll(d, rec.writes);
    match LoadOperation(d1, r.operationId)
    case LookupIs(existing) => Plan(rec.writes, RecordedAnswer(env, r, existing))
    case _ =>
      match CheckRestore(env, d1, r, now)
      case RestoreStops(out) => Plan(rec.writes, out)
      case RestoreGo(work) => Then(rec, PlanRestoreBody(env, d1, r, work, now))
  }

  // ---------------------------------------------------------------- requests and runs

  datatype Request =
    | Publish(snapshot: Snapshot, expected: Hash, metadata: Metadata)
    | PublishGuarded(snapshot: Snapshot, expected: Hash, metadata: Metadata, guards: seq<Guard>)
    | Restore(request: RestoreRequest)
    | SetPolicy(policy: Policy, expectedEntry: Hash, expectedRevision: nat)
    | SetHold(projectId: ProjectId, hold: bool, reason: string, expectedEntry: Hash, expectedRevision: nat)
    | Reconcile

  /** A request, the time it runs at, and how many of its durable writes took effect. */
  datatype Event = Event(request: Request, now: string, done: nat)

  ghost function PlanOf(env: Env, d: Disk, q: Request, now: string): Plan
    requires EnvOk(env)
  {
    match q
    case Publish(s, expected, m) =>
      PlanPublish(env, d, s, expected, if m.kind == NoKind then m.(kind := Manual) else m, "", now)
    case PublishGuarded(s, expected, m, guards) => PlanGuarded(env, d, s, expected, m, guards, now)
    case Restore(r) => PlanRestore(env, d, r, now)
    case SetPolicy(p, e, n) => PlanSetPolicy(env, d, p, e, n, now)
    case SetHold(id, hold, reason, e, n) => PlanSetHold(env, d, id, hold, reason, e, n, now)
    case Reconcile => PlanReconcile(env, d, "")
  }

  function Taken(p: Plan, done: nat): seq<Write> {
    if done <= |p.writes| then p.writes[..done] else p.writes
  }

  ghost function Step(env: Env, v: World, e: Event): World
    requires EnvOk(env)
  {
    ApplyAll(v, Taken(PlanOf(env, v.disk, e.request, e.now), e.done))
  }

  /** Any sequence of operations, each cut off anywhere. */
  ghost function Run(env: Env, v: World, events: seq<Event>): World
    requires EnvOk(env)
    decreases |events|
  {
    if events == [] then v else Run(env, Step(env, v, events[0]), events[1..])
  }
}
