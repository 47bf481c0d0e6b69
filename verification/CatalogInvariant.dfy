/** What every reachable catalog directory satisfies, and why each durable write keeps it. */
module CatalogInvariant {
  import opened Options
  import opened CatalogTypes
  import opened CatalogJournal

  // ---------------------------------------------------------------- the invariant

  /** Every stored generation is filed under the digest of its own valid content. */
  ghost predicate StoreOk(env: Env, d: Disk) {
    && (forall h :: h in d.snapshots ==> Valid(env, d.snapshots[h]) && env.hash(d.snapshots[h]) == h)
    && (forall id :: id in d.policies ==> id != "" && d.policies[id].projectId == id)
  }

  ghost predicate MoveOk(v: World, i: nat)
    requires i < |v.moves|
  {
    && v.moves[i].target in v.disk.snapshots
    && v.disk.snapshots[v.moves[i].target].parent == v.moves[i].source
    && v.moves[i].source == (if i == 0 then "" else v.moves[i - 1].target)
  }

  /** The pointer moves form a chain of distinct generations that ends at the active one. */
  ghost predicate HistoryOk(v: World) {
    && v.disk.active == (if v.moves == [] then "" else v.moves[|v.moves| - 1].target)
    && (forall i :: 0 <= i < |v.moves| ==> MoveOk(v, i))
    && (forall i, j :: 0 <= i < j < |v.moves| ==> v.moves[i].target != v.moves[j].target)
  }

  predicate PointerKind(k: OpKind) { k == PublishOp || k == RestoreOp }

  predicate PolicyKind(k: OpKind) { k == PolicyOp || k == HoldOp }

  /** `target` is the digest of some generation whose parent is `source`. */
  ghost predicate Extends(env: Env, source: Hash, target: Hash) {
    exists s: Snapshot :: env.hash(s) == target && s.parent == source
  }

  ghost predicate IntentOk(env: Env, r: Record, id: OpId) {
    && ValidRecord(r, id)
    && (PointerKind(r.kind) || PolicyKind(r.kind))
    && (PointerKind(r.kind) ==> Extends(env, r.source, r.target))
    && (PolicyKind(r.kind) ==> r.target == r.source && r.target != "" && |r.changes| == 1 && OnlyChange(r.changes).projectId != "")
  }

  predicate ReceiptOk(d: Disk, id: OpId)
    requires id in d.receipts
  {
    id in d.intents && ValidRecord(d.receipts[id], id) && ValidReceipt(d.intents[id], d.receipts[id])
  }

  ghost predicate JournalOk(env: Env, d: Disk) {
    && (forall id :: id in d.intents ==> IntentOk(env, d.intents[id], id))
    && (forall id :: id in d.receipts ==> ReceiptOk(d, id))
  }

  function Pending(d: Disk): set<OpId> {
    d.intents.Keys - d.receipts.Keys
  }

  /** An operation without a receipt started from the active generation, or it is the one that
      installed it. */
  ghost predicate PendingOk(d: Disk) {
    forall id :: id in Pending(d) ==>
      d.intents[id].source == d.active || (PointerKind(d.intents[id].kind) && d.intents[id].target == d.active)
  }

  ghost predicate Sound(env: Env, v: World) {
    StoreOk(env, v.disk) && HistoryOk(v) && JournalOk(env, v.disk) && PendingOk(v.disk)
  }

  ghost predicate Moved(v: World, id: OpId) {
    exists i :: 0 <= i < |v.moves| && v.moves[i].op == id
  }

  ghost predicate ShownOnDisk(d: Disk, r: Record)
    requires |r.changes| == 1
  {
    LoadPolicy(d, OnlyChange(r.changes).projectId).Some? && PolicyShows(LoadPolicy(d, OnlyChange(r.changes).projectId).value, r)
  }

  /** The journal's account of one operation agrees with what happened. */
  ghost predicate TrueAccount(v: World, id: OpId)
    requires id in v.disk.intents
  {
    var d := v.disk;
    var r := d.intents[id];
    && (PointerKind(r.kind) ==>
        id !in v.saves
        && if id in d.receipts then (Moved(v, id) <==> d.receipts[id].status != NotApplied)
           else (Moved(v, id) <==> r.target == d.active))
    && (PolicyKind(r.kind) ==>
        !Moved(v, id)
        && |r.changes| == 1
        && if id in d.receipts then (id in v.saves <==> d.receipts[id].status != NotApplied)
           else (id in v.saves <==> ShownOnDisk(d, r)))
  }

  ghost predicate MoveAnnounced(v: World, i: nat)
    requires i < |v.moves|
  {
    v.moves[i].op in v.disk.intents && v.disk.intents[v.moves[i].op].target == v.moves[i].target
  }

  /** Receipts tell the truth: an operation is recorded as applied exactly when its own pointer
      move, or its own policy write, took place. */
  ghost predicate Truthful(v: World) {
    && (forall id :: id in v.disk.intents ==> TrueAccount(v, id))
    && (forall i :: 0 <= i < |v.moves| ==> MoveAnnounced(v, i))
    && (forall id :: id in v.saves ==> id in v.disk.intents)
  }

  lemma {:induction false} EmptyIsSound(env: Env)
    ensures Sound(env, EMPTY_WORLD) && Truthful(EMPTY_WORLD)
  {
  }

  // ---------------------------------------------------------------- ancestry

  /** The generations that have been active, newest first. */
  function History(moves: seq<Move>): (h: seq<Hash>)
    ensures |h| == |moves|
  {
    if moves == [] then [] else [moves[|moves| - 1].target] + History(moves[..|moves| - 1])
  }

  lemma {:induction false} HistoryAt(moves: seq<Move>)
    ensures |History(moves)| == |moves|
    ensures forall k :: 0 <= k < |moves| ==> History(moves)[k] == moves[|moves| - 1 - k].target
  {
    if moves != [] {
      HistoryAt(moves[..|moves| - 1]);
    }
  }

  lemma {:induction false} HistoryIn(moves: seq<Move>, h: Hash)
    ensures h in History(moves) <==> exists i :: 0 <= i < |moves| && moves[i].target == h
  {
    HistoryAt(moves);
    if h in History(moves) {
      var k :| 0 <= k < |History(moves)| && History(moves)[k] == h;
      assert moves[|moves| - 1 - k].target == h;
    }
    if i :| 0 <= i < |moves| && moves[i].target == h {
      assert History(moves)[|moves| - 1 - i] == h;
    }
  }

  lemma {:induction false} HistoryDistinct(v: World)
    requires HistoryOk(v)
    ensures forall i, j :: 0 <= i < j < |History(v.moves)| ==> History(v.moves)[i] != History(v.moves)[j]
  {
    HistoryAt(v.moves);
  }

  /** The parent walk from the n-th installed generation visits exactly the earlier ones. */
  lemma {:induction false} WalkFrom(env: Env, v: World, n: nat, seen: seq<Hash>)
    requires EnvOk(env) && StoreOk(env, v.disk) && HistoryOk(v) && n <= |v.moves|
    requires forall i :: 0 <= i < n ==> v.moves[i].target !in seen
    ensures Walk(env, v.disk, if n == 0 then "" else v.moves[n - 1].target, seen) == Some(seen + History(v.moves[..n]))
    decreases n
  {
    if n == 0 {
      assert seen + History(v.moves[..n]) == seen;
    } else {
      var t := v.moves[n - 1].target;
      assert MoveOk(v, n - 1);
      assert env.hash(v.disk.snapshots[t]) == t && t != "";
      WalkFrom(env, v, n - 1, seen + [t]);
      assert v.moves[..n][..n - 1] == v.moves[..n - 1];
      assert seen + History(v.moves[..n]) == seen + [t] + History(v.moves[..n - 1]);
    }
  }

  /** Reading the ancestry from disk gives back the whole history. */
  lemma {:induction false} WalkIsHistory(env: Env, v: World)
    requires EnvOk(env) && StoreOk(env, v.disk) && HistoryOk(v)
    ensures Walk(env, v.disk, v.disk.active, []) == Some(History(v.moves))
    ensures !LoadActive(env, v.disk).ActiveBroken?
  {
    WalkFrom(env, v, |v.moves|, []);
    assert v.moves[..|v.moves|] == v.moves;
    assert [] + History(v.moves) == History(v.moves);
    if v.moves != [] {
      assert MoveOk(v, |v.moves| - 1);
    }
  }

  lemma {:induction false} MembershipFrom(env: Env, v: World, n: nat, target: Hash, seen: seq<Hash>)
    requires EnvOk(env) && StoreOk(env, v.disk) && HistoryOk(v) && n <= |v.moves|
    requires forall i :: 0 <= i < n ==> v.moves[i].target !in seen
    ensures InAncestry(env, v.disk, if n == 0 then "" else v.moves[n - 1].target, target, seen)
            == (if exists i :: 0 <= i < n && v.moves[i].target == target then Found else Missing)
    decreases n
  {
    if n > 0 {
      var t := v.moves[n - 1].target;
      assert MoveOk(v, n - 1);
      assert env.hash(v.disk.snapshots[t]) == t && t != "";
      if t != target {
        MembershipFrom(env, v, n - 1, target, seen + [t]);
      }
    }
  }

  /** A generation that extends the active one has never been installed: this is why the
      ancestry cannot become cyclic. */
  lemma {:induction false} NewTargetIsNew(env: Env, v: World, target: Hash)
    requires EnvOk(env) && StoreOk(env, v.disk) && HistoryOk(v)
    requires Extends(env, v.disk.active, target)
    ensures forall i :: 0 <= i < |v.moves| ==> v.moves[i].target != target
    ensures target !in History(v.moves) && target != v.disk.active
  {
    var s: Snapshot :| env.hash(s) == target && s.parent == v.disk.active;
    if v.moves != [] {
      assert MoveOk(v, |v.moves| - 1);
      assert v.disk.active != "";
    }
    forall i | 0 <= i < |v.moves|
      ensures v.moves[i].target != target
    {
      assert MoveOk(v, i);
      if v.moves[i].target == target {
        assert false;
      }
    }
    HistoryIn(v.moves, target);
  }

  // ---------------------------------------------------------------- one write

  /** When a write keeps the directory sound. */
  ghost predicate Safe(env: Env, v: World, w: Write) {
    var d := v.disk;
    match w
    case PutSnapshot(h, s) => h !in d.snapshots && env.hash(s) == h && Valid(env, s)
    case PutIntent(r) => r.operationId !in d.intents && IntentOk(env, r, r.operationId) && r.source == d.active
    case PutReceipt(r) =>
      && r.operationId in Pending(d) && ValidRecord(r, r.operationId) && ValidReceipt(d.intents[r.operationId], r)
    case MovePointer(op, t) =>
      && op in d.intents && PointerKind(d.intents[op].kind)
      && d.intents[op].source == d.active && d.intents[op].target == t
      && t in d.snapshots && d.snapshots[t].parent == d.active
      && Pending(d) <= {op}
    case PutPolicy(_, p) => p.projectId != ""
  }

  lemma {:induction false} StoreKept(env: Env, v: World, w: Write)
    requires StoreOk(env, v.disk) && Safe(env, v, w)
    ensures StoreOk(env, Apply(v, w).disk)
  {
  }

  lemma {:induction false} HistoryKept(env: Env, v: World, w: Write)
    requires EnvOk(env) && StoreOk(env, v.disk) && HistoryOk(v) && JournalOk(env, v.disk) && Safe(env, v, w)
    ensures HistoryOk(Apply(v, w))
  {
    var u := Apply(v, w);
    if w.MovePointer? {
      assert IntentOk(env, v.disk.intents[w.op], w.op);
      NewTargetIsNew(env, v, w.target);
      assert forall i :: 0 <= i < |v.moves| ==> u.moves[i] == v.moves[i];
      forall i | 0 <= i < |u.moves|
        ensures MoveOk(u, i)
      {
        if i < |v.moves| {
          assert MoveOk(v, i);
        }
      }
    } else {
      forall i | 0 <= i < |u.moves|
        ensures MoveOk(u, i)
      {
        assert MoveOk(v, i);
      }
    }
  }

  lemma {:induction false} JournalKept(env: Env, v: World, w: Write)
    requires JournalOk(env, v.disk) && Safe(env, v, w)
    ensures JournalOk(env, Apply(v, w).disk)
  {
    var d, e := v.disk, Apply(v, w).disk;
    forall id | id in e.receipts
      ensures ReceiptOk(e, id)
    {
      if id in d.receipts {
        assert ReceiptOk(d, id);
      }
    }
    forall id | id in e.intents
      ensures IntentOk(env, e.intents[id], id)
    {
      if id in d.intents {
        assert IntentOk(env, d.intents[id], id);
      }
    }
  }

  lemma {:induction false} PendingKept(env: Env, v: World, w: Write)
    requires PendingOk(v.disk) && Safe(env, v, w)
    ensures PendingOk(Apply(v, w).disk)
  {
    var d, e := v.disk, Apply(v, w).disk;
    forall id | id in Pending(e)
      ensures e.intents[id].source == e.active || (PointerKind(e.intents[id].kind) && e.intents[id].target == e.active)
    {
      if id in d.intents {
        assert id in Pending(d);
      }
    }
  }

  lemma {:induction false} SafeKeepsSound(env: Env, v: World, w: Write)
    requires EnvOk(env) && Sound(env, v) && Safe(env, v, w)
    ensures Sound(env, Apply(v, w))
  {
    StoreKept(env, v, w);
    HistoryKept(env, v, w);
    JournalKept(env, v, w);
    PendingKept(env, v, w);
  }

  /** When a safe write also keeps the journal truthful. */
  ghost predicate Honest(v: World, w: Write) {
    var d := v.disk;
    match w
    case PutSnapshot(_, _) => true
    case PutIntent(r) => r.operationId !in d.intents && (PolicyKind(r.kind) ==> |r.changes| == 1 && !ShownOnDisk(d, r))
                         && (PointerKind(r.kind) ==> r.target != d.active)
    case PutReceipt(r) =>
      && r.operationId in Pending(d)
      && (var i := d.intents[r.operationId];
          && (PointerKind(i.kind) ==> (i.target == d.active <==> r.status != NotApplied))
          && (PolicyKind(i.kind) ==> |i.changes| == 1 && (ShownOnDisk(d, i) <==> r.status != NotApplied)))
    case MovePointer(op, _) => op !in d.receipts && op in d.intents
    case PutPolicy(op, p) =>
      && (op != "" ==> op in Pending(d) && PolicyKind(d.intents[op].kind) && |d.intents[op].changes| == 1
                       && OnlyChange(d.intents[op].changes).projectId == p.projectId && PolicyShows(p, d.intents[op]))
      && (forall id :: id in Pending(d) && id != op ==> PointerKind(d.intents[id].kind))
  }

  lemma {:induction false} MovedAfter(v: World, w: Write, id: OpId)
    ensures Moved(Apply(v, w), id) <==> Moved(v, id) || (w.MovePointer? && w.op == id)
  {
    var u := Apply(v, w);
    if w.MovePointer? {
      assert forall i :: 0 <= i < |v.moves| ==> u.moves[i] == v.moves[i];
      assert u.moves[|v.moves|].op == w.op;
    }
  }

  lemma {:induction false} SnapshotAccount(env: Env, v: World, w: Write, id: OpId)
    requires w.PutSnapshot? && id in v.disk.intents && TrueAccount(v, id) && IntentOk(env, v.disk.intents[id], id)
    requires Safe(env, v, w) && Honest(v, w)
    ensures id in Apply(v, w).disk.intents && TrueAccount(Apply(v, w), id)
  {
    MovedAfter(v, w, id);
  }

  lemma {:induction false} IntentAccount(env: Env, v: World, w: Write, id: OpId)
    requires w.PutIntent? && id in v.disk.intents && TrueAccount(v, id) && IntentOk(env, v.disk.intents[id], id)
    requires Safe(env, v, w) && Honest(v, w)
    ensures id in Apply(v, w).disk.intents && TrueAccount(Apply(v, w), id)
  {
    MovedAfter(v, w, id);
  }

  lemma {:induction false} ReceiptAccount(env: Env, v: World, w: Write, id: OpId)
    requires w.PutReceipt? && id in v.disk.intents && TrueAccount(v, id) && IntentOk(env, v.disk.intents[id], id)
    requires Safe(env, v, w) && Honest(v, w)
    ensures id in Apply(v, w).disk.intents && TrueAccount(Apply(v, w), id)
  {
    MovedAfter(v, w, id);
  }

  lemma {:induction false} PointerAccount(env: Env, v: World, w: Write, id: OpId)
    requires w.MovePointer? && id in v.disk.intents && TrueAccount(v, id) && IntentOk(env, v.disk.intents[id], id)
    requires Safe(env, v, w) && Honest(v, w)
    ensures id in Apply(v, w).disk.intents && TrueAccount(Apply(v, w), id)
  {
    MovedAfter(v, w, id);
    if id !in v.disk.receipts {
      assert id in Pending(v.disk);
    }
  }

  lemma {:induction false} PolicyAccount(env: Env, v: World, w: Write, id: OpId)
    requires w.PutPolicy? && id in v.disk.intents && TrueAccount(v, id) && IntentOk(env, v.disk.intents[id], id)
    requires Safe(env, v, w) && Honest(v, w)
    ensures id in Apply(v, w).disk.intents && TrueAccount(Apply(v, w), id)
  {
    MovedAfter(v, w, id);
    if id !in v.disk.receipts {
      assert id in Pending(v.disk);
    }
  }

  lemma {:induction false} HonestAccount(env: Env, v: World, w: Write, id: OpId)
    requires id in v.disk.intents && TrueAccount(v, id) && IntentOk(env, v.disk.intents[id], id)
    requires Safe(env, v, w) && Honest(v, w)
    ensures id in Apply(v, w).disk.intents && TrueAccount(Apply(v, w), id)
  {
    match w
    case PutSnapshot(_, _) => SnapshotAccount(env, v, w, id);
    case PutIntent(_) => IntentAccount(env, v, w, id);
    case PutReceipt(_) => ReceiptAccount(env, v, w, id);
    case MovePointer(_, _) => PointerAccount(env, v, w, id);
    case PutPolicy(_, _) => PolicyAccount(env, v, w, id);
  }

  lemma {:induction false} HonestKeepsTruth(env: Env, v: World, w: Write)
    requires EnvOk(env) && Sound(env, v) && Truthful(v) && Safe(env, v, w) && Honest(v, w)
    ensures Truthful(Apply(v, w))
  {
    var u := Apply(v, w);
    forall id | id in u.disk.intents
      ensures TrueAccount(u, id)
    {
      if id in v.disk.intents {
        HonestAccount(env, v, w, id);
      } else {
        MovedAfter(v, w, id);
        assert forall i :: 0 <= i < |v.moves| ==> MoveAnnounced(v, i) ==> v.moves[i].op != id;
        assert !Moved(v, id) && id !in v.saves;
      }
    }
    forall i | 0 <= i < |u.moves|
      ensures MoveAnnounced(u, i)
    {
      if i < |v.moves| {
        assert u.moves[i] == v.moves[i] && MoveAnnounced(v, i);
      }
    }
  }

  // ---------------------------------------------------------------- a list of writes

  ghost predicate Kept(inv: World -> bool, ok: (World, Write) -> bool) {
    forall v, w :: inv(v) && ok(v, w) ==> inv(Apply(v, w))
  }

  ghost predicate AllOk(ok: (World, Write) -> bool, v: World, ws: seq<Write>)
    decreases |ws|
  {
    ws == [] || (ok(v, ws[0]) && AllOk(ok, Apply(v, ws[0]), ws[1..]))
  }

  /** A property kept by every admissible write holds wherever the operation is cut off. */
  lemma {:induction false} EveryPrefix(inv: World -> bool, ok: (World, Write) -> bool, v: World, ws: seq<Write>, k: nat)
    requires Kept(inv, ok) && inv(v) && AllOk(ok, v, ws) && k <= |ws|
    ensures inv(ApplyAll(v, ws[..k]))
    decreases |ws|
  {
    if k == 0 {
      assert ws[..k] == [];
    } else {
      EveryPrefix(inv, ok, Apply(v, ws[0]), ws[1..], k - 1);
      assert ws[..k][0] == ws[0] && ws[..k][1..] == ws[1..][..k - 1];
    }
  }

  lemma {:induction false} AllOkConcat(ok: (World, Write) -> bool, v: World, a: seq<Write>, b: seq<Write>)
    ensures AllOk(ok, v, a + b) <==> AllOk(ok, v, a) && AllOk(ok, ApplyAll(v, a), b)
    decreases |a|
  {
    if a == [] {
      assert a + b == b;
    } else {
      assert (a + b)[0] == a[0] && (a + b)[1..] == a[1..] + b;
      AllOkConcat(ok, Apply(v, a[0]), a[1..], b);
    }
  }
}
