/** The installer's transaction over several files, and its automatic recovery. */
module InstallTransaction {
  import opened Faults
  import opened Options
  import opened FileBytes

  type Path = string

  type Content = Bytes

  type Files = map<Path, Content>

  function At(files: Files, p: Path): Option<Content> {
    if p in files then Some(files[p]) else None
  }

  /** What a managed file becomes. `merge` gives the new content, or nothing when the file cannot be
      merged; `undo` takes the managed part out of a content, and says whether a file remains;
      `reinstate` puts the managed part of an earlier content back into a content; `accepts` is the
      final check of the managed part. */
  datatype Artifact = Artifact(
    path: Path,
    merge: Option<Content> -> Option<Content>,
    undo: Content -> Option<Option<Content>>,
    reinstate: (Content, Content) -> Option<Content>,
    accepts: Content -> bool)

  /** Taking the managed part out of a file that consists of nothing else leaves no file. */
  ghost predicate ArtifactOk(a: Artifact) {
    a.merge(None).Some? ==> a.undo(a.merge(None).value) == Some(None)
  }

  /** One entry of the backup manifest. */
  datatype Backup = Backup(artifact: Artifact, prior: Option<Content>)

  /** What restoring a backup makes of a file, or nothing when it refuses. With `keep` the user's part
      of a file stays as it is now; without, an earlier content comes back as a whole. */
  function Restored(b: Backup, current: Option<Content>, keep: bool): Option<Option<Content>> {
    match (b.prior, current)
    case (Some(c), Some(now)) =>
      if !keep then Some(Some(c))
      else (match b.artifact.reinstate(c, now) case None => None case Some(d) => Some(Some(d)))
    case (Some(c), None) => Some(Some(c))
    case (None, Some(now)) => b.artifact.undo(now)
    case (None, None) => Some(None)
  }

  /** `Refused` failed before the first write, `Recovered` failed and reports that everything was
      put back. */
  datatype Outcome = Applied | Unchanged | Refused | Recovered | RecoveryFailed

  const STUB: Content := [0]

  predicate FirstReadWorks(readFaults: seq<bool>) {
    readFaults == [] || readFaults[0]
  }

  function RestOf<T>(s: seq<T>): seq<T> {
    if s == [] then [] else s[1..]
  }

  /** The script of faults behind the next `n` operations. */
  function Skip<T>(s: seq<T>, n: nat): seq<T> {
    if n <= |s| then s[n..] else []
  }

  function FirstFault(writeFaults: seq<Fault>): Fault {
    if writeFaults == [] then Works else writeFaults[0]
  }

  /** The next `n` reads work. */
  predicate FirstReads(readFaults: seq<bool>, n: nat) {
    forall i :: 0 <= i < n && i < |readFaults| ==> readFaults[i]
  }

  predicate ReadsWork(readFaults: seq<bool>) {
    forall i :: 0 <= i < |readFaults| ==> readFaults[i]
  }

  /** The next `n` writes work. */
  predicate FirstWrites(writeFaults: seq<Fault>, n: nat) {
    forall i :: 0 <= i < n && i < |writeFaults| ==> writeFaults[i].Works?
  }

  /** The next `r` reads and `w` writes work. */
  predicate Served(readFaults: seq<bool>, writeFaults: seq<Fault>, r: nat, w: nat) {
    FirstReads(readFaults, r) && FirstWrites(writeFaults, w)
  }

  /** How many reads and writes are going to fail. */
  function FaultsIn(readFaults: seq<bool>, writeFaults: seq<Fault>): nat {
    FailingReads(readFaults) + FailingWrites(writeFaults)
  }

  function FailingReads(readFaults: seq<bool>): nat {
    if readFaults == [] then 0 else (if readFaults[0] then 0 else 1) + FailingReads(readFaults[1..])
  }

  function FailingWrites(writeFaults: seq<Fault>): nat {
    if writeFaults == [] then 0 else (if writeFaults[0].Works? then 0 else 1) + FailingWrites(writeFaults[1..])
  }

  /** Nothing fails any more. */
  predicate Quiet(readFaults: seq<bool>, writeFaults: seq<Fault>) {
    ReadsWork(readFaults) && WritesWork(writeFaults)
  }

  predicate WritesWork(writeFaults: seq<Fault>) {
    forall i :: 0 <= i < |writeFaults| ==> writeFaults[i].Works?
  }

  lemma {:induction false} SkipNext<T>(s: seq<T>, n: nat)
    ensures RestOf(Skip(s, n)) == Skip(s, n + 1)
    ensures Skip(s, 0) == s
  {
  }

  lemma {:induction false} NextRead(readFaults: seq<bool>, n: nat)
    ensures FirstReadWorks(Skip(readFaults, n)) <==> (n < |readFaults| ==> readFaults[n])
    ensures FirstReads(readFaults, n + 1) <==> FirstReads(readFaults, n) && FirstReadWorks(Skip(readFaults, n))
  {
  }

  lemma {:induction false} ServedMore(readFaults: seq<bool>, writeFaults: seq<Fault>, r: nat, w: nat, moreReads: nat, moreWrites: nat)
    ensures Served(readFaults, writeFaults, r + moreReads, w + moreWrites) <==>
              Served(readFaults, writeFaults, r, w) && Served(Skip(readFaults, r), Skip(writeFaults, w), moreReads, moreWrites)
    ensures Skip(Skip(readFaults, r), moreReads) == Skip(readFaults, r + moreReads)
    ensures Skip(Skip(writeFaults, w), moreWrites) == Skip(writeFaults, w + moreWrites)
  {
    TwoReads(readFaults, r, moreReads);
    TwoWrites(writeFaults, w, moreWrites);
  }

  lemma {:induction false} TwoReads(readScript: seq<bool>, a: nat, b: nat)
    ensures Skip(Skip(readScript, a), b) == Skip(readScript, a + b)
    ensures FirstReads(readScript, a + b) <==> FirstReads(readScript, a) && FirstReads(Skip(readScript, a), b)
  {
    forall i | 0 <= i < b && i < |Skip(readScript, a)|
      ensures Skip(readScript, a)[i] == readScript[a + i]
    {
    }
    if FirstReads(readScript, a) && FirstReads(Skip(readScript, a), b) {
      forall i | 0 <= i < a + b && i < |readScript|
        ensures readScript[i]
      {
        if a <= i {
          assert Skip(readScript, a)[i - a] == readScript[i];
        }
      }
    }
  }

  lemma {:induction false} TwoWrites(writeScript: seq<Fault>, a: nat, b: nat)
    ensures Skip(Skip(writeScript, a), b) == Skip(writeScript, a + b)
    ensures FirstWrites(writeScript, a + b) <==> FirstWrites(writeScript, a) && FirstWrites(Skip(writeScript, a), b)
  {
    forall i | 0 <= i < b && i < |Skip(writeScript, a)|
      ensures Skip(writeScript, a)[i] == writeScript[a + i]
    {
    }
    if FirstWrites(writeScript, a) && FirstWrites(Skip(writeScript, a), b) {
      forall i | 0 <= i < a + b && i < |writeScript|
        ensures writeScript[i].Works?
      {
        if a <= i {
          assert Skip(writeScript, a)[i - a] == writeScript[i];
        }
      }
    }
  }

  /** The next reads and writes, one by one. */
  lemma {:induction false} ServedNext(readFaults: seq<bool>, writeFaults: seq<Fault>)
    ensures Served(readFaults, writeFaults, 0, 0)
    ensures Served(readFaults, writeFaults, 1, 0) <==> FirstReadWorks(readFaults)
    ensures Served(readFaults, writeFaults, 0, 1) <==> FirstFault(writeFaults).Works?
    ensures Served(readFaults, writeFaults, 1, 1) <==> FirstReadWorks(readFaults) && FirstFault(writeFaults).Works?
    ensures Served(readFaults, writeFaults, 2, 1) <==>
              FirstReadWorks(readFaults) && FirstReadWorks(RestOf(readFaults)) && FirstFault(writeFaults).Works?
    ensures Skip(readFaults, 0) == readFaults && Skip(readFaults, 1) == RestOf(readFaults)
    ensures Skip(readFaults, 2) == RestOf(RestOf(readFaults))
    ensures Skip(writeFaults, 0) == writeFaults && Skip(writeFaults, 1) == RestOf(writeFaults)
  {
    assert 2 <= |readFaults| ==> RestOf(readFaults)[0] == readFaults[1];
  }

  lemma {:induction false} QuietMeans(readFaults: seq<bool>, writeFaults: seq<Fault>)
    ensures Quiet(readFaults, writeFaults) <==> FaultsIn(readFaults, writeFaults) == 0
  {
    NoFailingReads(readFaults);
    NoFailingWrites(writeFaults);
  }

  lemma {:induction false} NoFailingReads(readFaults: seq<bool>)
    ensures ReadsWork(readFaults) <==> FailingReads(readFaults) == 0
  {
    if readFaults != [] {
      NoFailingReads(readFaults[1..]);
      assert forall i :: 1 <= i < |readFaults| ==> readFaults[i] == readFaults[1..][i - 1];
    }
  }

  lemma {:induction false} NoFailingWrites(writeFaults: seq<Fault>)
    ensures WritesWork(writeFaults) <==> FailingWrites(writeFaults) == 0
  {
    if writeFaults != [] {
      NoFailingWrites(writeFaults[1..]);
      assert forall i :: 1 <= i < |writeFaults| ==> writeFaults[i] == writeFaults[1..][i - 1];
    }
  }

  class Root {
    var files: Files
    var writeFaults: seq<Fault>
    var readFaults: seq<bool>

    constructor (files: Files, writeFaults: seq<Fault>, readFaults: seq<bool>)
      ensures this.files == files && this.writeFaults == writeFaults && this.readFaults == readFaults
    {
      this.files, this.writeFaults, this.readFaults := files, writeFaults, readFaults;
    }

    method Read(p: Path) returns (ok: bool, c: Option<Content>)
      modifies this`readFaults
      ensures ok ==> c == At(files, p)
      ensures ok == FirstReadWorks(old(readFaults)) && readFaults == RestOf(old(readFaults))
    {
      ok := FirstReadWorks(readFaults);
      readFaults := RestOf(readFaults);
      c := if ok then At(files, p) else None;
    }

    /** Replaces a file as a whole. */
    method Write(p: Path, c: Content) returns (ok: bool, committed: bool)
      modifies this`files, this`writeFaults
      ensures committed <==> !FirstFault(old(writeFaults)).LostBefore?
      ensures ok <==> FirstFault(old(writeFaults)).Works?
      ensures writeFaults == RestOf(old(writeFaults))
      ensures files == if committed then old(files)[p := c] else old(files)
    {
      var fault := FirstFault(writeFaults);
      writeFaults := RestOf(writeFaults);
      committed, ok := fault != LostBefore, fault == Works;
      if committed {
        files := files[p := c];
      }
    }

    method Remove(p: Path) returns (ok: bool)
      modifies this`files, this`writeFaults
      ensures ok <==> FirstFault(old(writeFaults)).Works?
      ensures writeFaults == RestOf(old(writeFaults))
      ensures files == if FirstFault(old(writeFaults)).LostBefore? then old(files) else old(files) - {p}
    {
      var fault := FirstFault(writeFaults);
      writeFaults := RestOf(writeFaults);
      if fault != LostBefore {
        files := files - {p};
      }
      ok := fault == Works;
    }

    /** Restores one managed file from its backup. */
    method RestoreFile(b: Backup, keep: bool) returns (ok: bool)
      modifies this
      ensures forall q :: q != b.artifact.path ==> At(files, q) == At(old(files), q)
      ensures ok ==> Restored(b, At(old(files), b.artifact.path), keep) == Some(At(files, b.artifact.path))
      ensures RestoreStep(b, At(old(files), b.artifact.path), keep, old(readFaults), old(writeFaults)) == Stage(ok, false, readFaults, writeFaults)
    {
      var p := b.artifact.path;
      var read, current := Read(p);
      if !read {
        return false;
      }
      match b.prior {
        case Some(c) =>
          var backupRead, _ := Read(p);
          if !backupRead {
            return false;
          }
          var desired := if keep && current.Some? then b.artifact.reinstate(c, current.value) else Some(c);
          if desired.None? {
            return false;
          }
          var committed;
          ok, committed := Write(p, desired.value);
        case None =>
          if current.None? {
            return true;
          }
          var rest := b.artifact.undo(current.value);
          if rest.None? {
            return false;
          }
          if rest.value.None? {
            ok := Remove(p);
          } else {
            var committed;
            ok, committed := Write(p, rest.value.value);
          }
      }
    }

    /** Removes an override that this transaction created, unless somebody has filled it in. */
    method RemoveOverride(p: Path) returns (ok: bool)
      modifies this
      ensures forall q :: q != p ==> At(files, q) == At(old(files), q)
      ensures At(files, p) == At(old(files), p) || At(files, p) == None
      ensures ok && At(old(files), p) in {None, Some(STUB)} ==> At(files, p) == None
      ensures Quiet(old(readFaults), old(writeFaults)) ==> ok && Quiet(readFaults, writeFaults)
    {
      var read, c := Read(p);
      if !read {
        return false;
      }
      if c != Some(STUB) {
        return true;
      }
      ok := Remove(p);
    }

    /** Sets the state file back. */
    method RestoreState(p: Path, prior: Option<Content>) returns (ok: bool)
      modifies this
      ensures forall q :: q != p ==> At(files, q) == At(old(files), q)
      ensures ok ==> At(files, p) == prior
      ensures readFaults == old(readFaults)
      ensures prior.Some? || p in old(files) ==> (ok <==> FirstFault(old(writeFaults)).Works?) && writeFaults == RestOf(old(writeFaults))
      ensures prior.None? && p !in old(files) ==> ok && writeFaults == old(writeFaults)
    {
      match prior
      case Some(c) =>
        var committed;
        ok, committed := Write(p, c);
      case None =>
        if p !in files {
          return true;
        }
        ok := Remove(p);
    }

    // -------------------------------------------------------------- recovery

    /** Whether every file that was written still has the content that was recorded for it. */
    method CheckWritten(post: map<Path, Content>) returns (ok: bool)
      modifies this`readFaults
      ensures ok ==> forall p :: p in post ==> At(files, p) == Some(post[p])
      ensures ReadsWork(old(readFaults)) && (forall p :: p in post ==> At(files, p) == Some(post[p])) ==> ok && ReadsWork(readFaults)
    {
      var paths := post.Keys;
      while paths != {}
        invariant ReadsWork(old(readFaults)) ==> ReadsWork(readFaults)
        invariant paths <= post.Keys
        invariant forall p :: p in post && p !in paths ==> At(files, p) == Some(post[p])
        decreases |paths|
      {
        var p :| p in paths;
        paths := paths - {p};
        var read, c := Read(p);
        if !read || c != Some(post[p]) {
          return false;
        }
      }
      return true;
    }

    method RemoveOverrides(created: seq<Path>, ghost pre: Files) returns (ok: bool)
      requires forall p :: p in created ==> At(pre, p) == None && At(files, p) in {None, Some(STUB)}
      modifies this
      ensures forall q :: q !in created ==> At(files, q) == At(old(files), q)
      ensures ok ==> forall p :: p in created ==> At(files, p) == None
      ensures Quiet(old(readFaults), old(writeFaults)) ==> ok && Quiet(readFaults, writeFaults)
    {
      ok := true;
      for i := 0 to |created|
        invariant forall q :: q !in created ==> At(files, q) == At(old(files), q)
        invariant forall q :: q in created ==> At(files, q) in {None, Some(STUB)}
        invariant ok ==> forall j :: 0 <= j < i ==> At(files, created[j]) == None
        invariant Quiet(old(readFaults), old(writeFaults)) ==> ok && Quiet(readFaults, writeFaults)
      {
        var p := created[i];
        assert p in created;
        ghost var before := files;
        var removed := RemoveOverride(p);
        assert At(files, p) in {None, Some(STUB)};
        ok := ok && removed;
      }
    }

    /** Restores the chosen files from their backups, in the order of the manifest. */
    method RestoreFiles(backups: seq<Backup>, chosen: set<Path>, keep: bool) returns (ok: bool)
      requires DistinctBackups(backups)
      modifies this
      ensures forall q :: q !in chosen || q !in Paths(backups) ==> At(files, q) == At(old(files), q)
      ensures ok ==> AllRestored(backups, |backups|, chosen, keep, old(files), files)
      ensures RestoreStage(backups, 0, chosen, keep, old(files), old(readFaults), old(writeFaults)) == Stage(ok, false, readFaults, writeFaults)
    {
      for i := 0 to |backups|
        invariant RestoreStage(backups, 0, chosen, keep, old(files), old(readFaults), old(writeFaults))
                  == RestoreStage(backups, i, chosen, keep, old(files), readFaults, writeFaults)
        invariant forall q :: q !in chosen || q !in Paths(backups) ==> At(files, q) == At(old(files), q)
        invariant forall j :: i <= j < |backups| ==> At(files, backups[j].artifact.path) == At(old(files), backups[j].artifact.path)
        invariant AllRestored(backups, i, chosen, keep, old(files), files)
      {
        assert backups[i].artifact.path in Paths(backups);
        if backups[i].artifact.path in chosen {
          var restored := RestoreFile(backups[i], keep);
          if !restored {
            return false;
          }
        }
      }
      return true;
    }

    /** The automatic recovery of a failed transaction. `lost` is a managed file whose write took
        effect although recording it failed, if there is one. */
    method Recover(t: Log, active: seq<Artifact>, backups: seq<Backup>, statePath: Path, newState: Content, ghost pre: Files,
                   ghost lost: Option<Path>) returns (recovered: bool)
      requires BackupsOf(backups, active, pre) && t.priorState == At(pre, statePath)
      requires Written(t, active, statePath, newState, pre, files, lost)
      modifies this
      ensures recovered ==> forall p :: Some(p) != lost ==> At(files, p) == At(pre, p)
      ensures Quiet(old(readFaults), old(writeFaults)) ==> recovered
      ensures recovered && lost.Some? ==> At(files, lost.value) == At(old(files), lost.value)
    {
      if t.writes == 0 {
        return true;
      }
      var intact := CheckWritten(t.post);
      if !intact {
        return false;
      }
      if t.stateAttempted {
        var read, c := Read(statePath);
        if !read || (c != t.priorState && c != Some(newState)) {
          return false;
        }
      }
      var removed := RemoveOverrides(t.created, pre);
      ghost var mid := files;
      BackupPaths(backups, active);
      OverridesUndone(t, active, backups, statePath, newState, pre, old(files), mid, lost);
      if Quiet(readFaults, writeFaults) {
        QuietlyRestored(backups, t.post.Keys, false, mid, readFaults, writeFaults);
      }
      var restored := RestoreFiles(backups, t.post.Keys, false);
      if !restored || !removed {
        return false;
      }
      AllUndone(t, active, backups, statePath, newState, pre, old(files), mid, files, lost);
      if t.stateAttempted {
        recovered := RestoreState(statePath, t.priorState);
      } else {
        recovered := true;
      }
    }

    // -------------------------------------------------------------- the transaction

    /** Writes one file and records what was written. */
    method WriteRecorded(p: Path, c: Content, t: Log) returns (ok: bool, committed: bool, recorded: bool, log: Log)
      modifies this
      ensures committed <==> !FirstFault(old(writeFaults)).LostBefore?
      ensures recorded <==> committed && FirstReadWorks(old(readFaults))
      ensures ok <==> recorded && FirstFault(old(writeFaults)).Works?
      ensures files == if committed then old(files)[p := c] else old(files)
      ensures log == if committed then t.(writes := t.writes + 1, post := if recorded then t.post[p := c] else t.post) else t
      ensures writeFaults == RestOf(old(writeFaults)) && readFaults == if committed then RestOf(old(readFaults)) else old(readFaults)
    {
      log, recorded := t, false;
      ok, committed := Write(p, c);
      if committed {
        var read, now := Read(p);
        recorded := read;
        log := t.(writes := t.writes + 1, post := if recorded then t.post[p := c] else t.post);
        ok := ok && recorded;
      }
    }

    /** Writes the merged content of one managed file. */
    method WriteMerged(active: seq<Artifact>, i: nat, desired: Content, statePath: Path, newState: Content, t0: Log,
                       ghost pre: Files) returns (ok: bool, t: Log, ghost lost: Option<Path>)
      requires Written(t0, active, statePath, newState, pre, files, None) && t0.created == [] && i < |active|
      requires DistinctActive(active) && active[i].path !in t0.post && At(files, active[i].path) == At(pre, active[i].path)
      requires Some(desired) == active[i].merge(At(pre, active[i].path)) && Some(desired) != At(pre, active[i].path)
      modifies this
      ensures Written(t, active, statePath, newState, pre, files, lost)
      ensures t == t0.(writes := t.writes, post := t.post) && forall p :: p in t.post ==> p in t0.post || p == active[i].path
      ensures forall q :: q != active[i].path ==> At(files, q) == At(old(files), q)
      ensures lost == if !FirstFault(old(writeFaults)).LostBefore? && !FirstReadWorks(old(readFaults)) then Some(active[i].path) else None
      ensures ok <==> FirstFault(old(writeFaults)).Works? && lost.None?
      ensures ok || lost.Some? ==> At(files, active[i].path) == Some(desired)
      ensures readFaults == if FirstFault(old(writeFaults)).LostBefore? then old(readFaults) else RestOf(old(readFaults))
      ensures writeFaults == RestOf(old(writeFaults))
    {
      ghost var before := files;
      var committed, recorded;
      ok, committed, recorded, t := WriteRecorded(active[i].path, desired, t0);
      lost := if committed && !recorded then Some(active[i].path) else None;
      OneWritten(t0, t, active, i, statePath, newState, pre, before, files, desired, committed, recorded, lost);
    }

    /** Merges and writes one managed file. */
    method WriteOne(active: seq<Artifact>, i: nat, planned: Option<Content>, statePath: Path, newState: Content, t0: Log,
                    ghost pre: Files) returns (ok: bool, t: Log, ghost lost: Option<Path>)
      requires Written(t0, active, statePath, newState, pre, files, None) && t0.created == [] && i < |active|
      requires DistinctActive(active) && active[i].path !in t0.post && At(files, active[i].path) == At(pre, active[i].path) == planned
      modifies this
      ensures Written(t, active, statePath, newState, pre, files, lost)
      ensures t == t0.(writes := t.writes, post := t.post) && forall p :: p in t.post ==> p in t0.post || p == active[i].path
      ensures forall q :: q != active[i].path ==> At(files, q) == At(old(files), q)
      ensures ok ==> lost.None? && At(files, active[i].path) == active[i].merge(planned)
      ensures lost.Some? ==> lost == Some(active[i].path) && At(files, active[i].path) == active[i].merge(planned) != planned
      ensures ActiveStep(active[i], planned, old(readFaults), old(writeFaults)) == Stage(ok, lost.Some?, readFaults, writeFaults)
    {
      ok, t, lost := false, t0, None;
      var read, current := Read(active[i].path);
      if read && current == planned {
        var desired := active[i].merge(current);
        if desired.Some? && current != desired {
          ok, t, lost := WriteMerged(active, i, desired.value, statePath, newState, t0, pre);
        } else {
          ok := desired.Some?;
        }
      }
    }

    /** Merges and writes the managed files, one after the other. */
    method WriteActive(active: seq<Artifact>, planned: seq<Option<Content>>, statePath: Path, newState: Content, t0: Log,
                       ghost pre: Files) returns (ok: bool, t: Log, ghost lost: Option<Path>)
      requires files == pre && |planned| == |active| && t0 == Log(0, map[], [], false, At(pre, statePath))
      requires forall i :: 0 <= i < |active| ==> planned[i] == At(pre, active[i].path)
      requires statePath !in ActivePaths(active) && DistinctActive(active)
      modifies this
      ensures Written(t, active, statePath, newState, pre, files, lost) && t == t0.(writes := t.writes, post := t.post)
      ensures ok ==> lost.None? && Merged(active, |active|, pre, files)
      ensures lost.Some? ==> LeftMerged(active, lost.value, pre, files)
      ensures ActiveStage(active, 0, pre, old(readFaults), old(writeFaults)) == Stage(ok, lost.Some?, readFaults, writeFaults)
    {
      t, lost := t0, None;
      for i := 0 to |active|
        invariant Written(t, active, statePath, newState, pre, files, None) && t == t0.(writes := t.writes, post := t.post)
        invariant ActiveStage(active, 0, pre, old(readFaults), old(writeFaults)) == ActiveStage(active, i, pre, readFaults, writeFaults)
        invariant lost.None? && Merged(active, i, pre, files) && Untouched(active, i, pre, files, t.post)
      {
        ghost var before, post := files, t.post;
        ok, t, lost := WriteOne(active, i, planned[i], statePath, newState, t, pre);
        if !ok {
          return;
        }
        OneMerged(active, i, pre, before, files, post, t.post);
      }
      ok := true;
    }

    /** Creates one override file. */
    method WriteOverride(active: seq<Artifact>, p: Path, statePath: Path, newState: Content, t0: Log, ghost pre: Files)
      returns (ok: bool, t: Log)
      requires Written(t0, active, statePath, newState, pre, files, None)
      requires p !in ActivePaths(active) && p != statePath && At(pre, p) == None && p !in t0.created
      modifies this
      ensures Written(t, active, statePath, newState, pre, files, None)
      ensures t == t0.(writes := t.writes, post := t.post, created := t.created)
      ensures forall q :: q in t.created ==> q in t0.created || q == p
      ensures forall q :: q != p ==> At(files, q) == At(old(files), q)
      ensures ok ==> At(files, p) == Some(STUB)
      ensures OverrideStep(old(readFaults), old(writeFaults)) == Stage(ok, false, readFaults, writeFaults)
    {
      t := t0;
      assert At(files, p) == None;
      var read, current := Read(p);
      if !read || current != None {
        return false, t;
      }
      ghost var before := files;
      var committed, recorded;
      ok, committed, recorded, t := WriteRecorded(p, STUB, t0);
      if committed {
        t := t.(created := t.created + [p]);
      }
      OverrideDone(t0, t, active, p, statePath, newState, pre, before, files, committed, recorded);
    }

    /** Creates the override files that did not exist. */
    method WriteOverrides(active: seq<Artifact>, overrides: seq<Path>, missing: set<Path>, statePath: Path, newState: Content, t0: Log,
                          ghost pre: Files) returns (ok: bool, t: Log)
      requires Written(t0, active, statePath, newState, pre, files, None) && t0.created == []
      requires OverridesOk(overrides, active, statePath) && forall p :: p in missing ==> At(pre, p) == None
      requires forall i :: 0 <= i < |overrides| && At(pre, overrides[i]) == None ==> overrides[i] in missing
      modifies this
      ensures Written(t, active, statePath, newState, pre, files, None)
      ensures t == t0.(writes := t.writes, post := t.post, created := t.created)
      ensures forall p :: p !in overrides ==> At(files, p) == At(old(files), p)
      ensures forall p :: p in t.created ==> p in overrides
      ensures ok ==> forall i :: 0 <= i < |overrides| && overrides[i] in missing ==> At(files, overrides[i]) == Some(STUB)
      ensures OverrideStage(overrides, 0, pre, old(readFaults), old(writeFaults)) == Stage(ok, false, readFaults, writeFaults)
    {
      t := t0;
      for i := 0 to |overrides|
        invariant Written(t, active, statePath, newState, pre, files, None)
        invariant t == t0.(writes := t.writes, post := t.post, created := t.created)
        invariant OverridesTo(overrides, i, missing, t.created, old(files), files)
        invariant OverrideStage(overrides, 0, pre, old(readFaults), old(writeFaults)) == OverrideStage(overrides, i, pre, readFaults, writeFaults)
      {
        var p := overrides[i];
        ghost var before, created := files, t.created;
        NextOverride(overrides, i, missing, created, old(files), files);
        if p in missing {
          ok, t := WriteOverride(active, p, statePath, newState, t, pre);
          OneMoreOverride(overrides, i, missing, created, t.created, old(files), before, files);
          if !ok {
            return;
          }
        }
      }
      ok := true;
    }

    /** The final check of everything that was written. */
    method CheckActive(active: seq<Artifact>, overrides: seq<Path>) returns (ok: bool)
      modifies this`readFaults
      ensures ok <==> FirstReads(old(readFaults), |active| + |overrides|) && Intact(active, |active|, files)
                      && forall i :: 0 <= i < |overrides| ==> At(files, overrides[i]) != None
      ensures ok ==> readFaults == Skip(old(readFaults), |active| + |overrides|)
      ensures CheckStage(Verdicts(active, overrides, files), 0, old(readFaults)) == (ok, readFaults)
    {
      ghost var verdicts := Verdicts(active, overrides, files);
      CheckMeans(active, overrides, files, readFaults);
      for i := 0 to |active|
        invariant CheckStage(verdicts, 0, old(readFaults)) == CheckStage(verdicts, i, readFaults)
      {
        assert verdicts[i] == Passes(active[i], At(files, active[i].path));
        var read, c := Read(active[i].path);
        if !read || c.None? || !active[i].accepts(c.value) {
          return false;
        }
      }
      for i := 0 to |overrides|
        invariant CheckStage(verdicts, 0, old(readFaults)) == CheckStage(verdicts, |active| + i, readFaults)
      {
        assert verdicts[|active| + i] == At(files, overrides[i]).Some?;
        var read, c := Read(overrides[i]);
        if !read || c.None? {
          return false;
        }
      }
      return true;
    }

    /** The contents of the managed files and the paths of the missing overrides before anything is
        written. */
    method Plan(active: seq<Artifact>, overrides: seq<Path>) returns (ok: bool, planned: seq<Option<Content>>, missing: set<Path>, changes: bool)
      modifies this`readFaults
      ensures ok ==> |planned| == |active| && forall i :: 0 <= i < |active| ==> planned[i] == At(files, active[i].path)
      ensures forall p :: p in missing ==> At(files, p) == None && p in overrides
      ensures ok ==> forall i :: 0 <= i < |overrides| && At(files, overrides[i]) == None ==> overrides[i] in missing
      ensures ok ==> (!changes <==> missing == {} && Merged(active, |active|, files, files))
      ensures ok <==> FirstReads(old(readFaults), |active| + |overrides|) && Mergeable(active, |active|, files)
      ensures ok ==> readFaults == Skip(old(readFaults), |active| + |overrides|)
    {
      missing := {};
      TwoReads(readFaults, |active|, |overrides|);
      ok, planned, changes := PlanFiles(active);
      if ok {
        ok, missing := PlanOverrides(overrides);
        changes := changes || missing != {};
      }
    }

    /** The contents of the managed files, and whether merging changes one of them. */
    method PlanFiles(active: seq<Artifact>) returns (ok: bool, planned: seq<Option<Content>>, changes: bool)
      modifies this`readFaults
      ensures ok ==> |planned| == |active| && forall i :: 0 <= i < |active| ==> planned[i] == At(files, active[i].path)
      ensures ok ==> (!changes <==> Merged(active, |active|, files, files))
      ensures ok <==> FirstReads(old(readFaults), |active|) && Mergeable(active, |active|, files)
      ensures ok ==> readFaults == Skip(old(readFaults), |active|)
    {
      planned, changes := [], false;
      ghost var script := readFaults;
      SkipNext(script, 0);
      for i := 0 to |active|
        invariant |planned| == i && forall j :: 0 <= j < i ==> planned[j] == At(files, active[j].path)
        invariant !changes <==> Merged(active, i, files, files)
        invariant Mergeable(active, i, files) && FirstReads(script, i) && readFaults == Skip(script, i)
      {
        SkipNext(script, i);
        NextRead(script, i);
        var read, c := Read(active[i].path);
        if !read || active[i].merge(c).None? {
          return false, planned, changes;
        }
        planned := planned + [c];
        MergedNext(active, i, files, files);
        changes := changes || active[i].merge(c) != c;
      }
      ok := true;
    }

    /** The missing overrides. */
    method PlanOverrides(overrides: seq<Path>) returns (ok: bool, missing: set<Path>)
      modifies this`readFaults
      ensures forall p :: p in missing ==> At(files, p) == None && p in overrides
      ensures ok ==> forall i :: 0 <= i < |overrides| && At(files, overrides[i]) == None ==> overrides[i] in missing
      ensures ok <==> FirstReads(old(readFaults), |overrides|)
      ensures ok ==> readFaults == Skip(old(readFaults), |overrides|)
    {
      missing := {};
      ghost var script := readFaults;
      SkipNext(script, 0);
      for i := 0 to |overrides|
        invariant forall p :: p in missing ==> At(files, p) == None && p in overrides
        invariant forall j :: 0 <= j < i && At(files, overrides[j]) == None ==> overrides[j] in missing
        invariant FirstReads(script, i) && readFaults == Skip(script, i)
      {
        SkipNext(script, i);
        NextRead(script, i);
        var read, c := Read(overrides[i]);
        if !read {
          return false, {};
        }
        if c.None? {
          missing := missing + {overrides[i]};
        }
      }
      ok := true;
    }

    /** Writes copies outside the managed paths. */
    method StoreCopies() returns (ok: bool)
      modifies this`writeFaults
      ensures ok <==> FirstFault(old(writeFaults)).Works?
      ensures writeFaults == RestOf(old(writeFaults))
    {
      ok := FirstFault(writeFaults).Works?;
      writeFaults := RestOf(writeFaults);
    }

    /** Copies the managed files aside. */
    method StoreBackup(active: seq<Artifact>, planned: seq<Option<Content>>) returns (ok: bool, backups: seq<Backup>)
      requires |planned| == |active|
      modifies this`writeFaults
      ensures |backups| == |active| && forall i :: 0 <= i < |active| ==> backups[i] == Backup(active[i], planned[i])
      ensures ok <==> FirstFault(old(writeFaults)).Works?
      ensures writeFaults == RestOf(old(writeFaults))
    {
      backups := seq(|active|, i requires 0 <= i < |active| => Backup(active[i], planned[i]));
      ok := StoreCopies();
    }

    /** Whether the installed files are intact, and what there is to do. */
    method Examine(installed: seq<Artifact>, active: seq<Artifact>, overrides: seq<Path>)
      returns (stops: Option<Outcome>, planned: seq<Option<Content>>, missing: set<Path>)
      modifies this`readFaults
      ensures stops.Some? ==> stops.value.Refused? || stops.value.Unchanged?
      ensures stops == Some(Unchanged) <==> NothingToDo(installed, active, overrides, files, old(readFaults))
      ensures stops.None? <==>
                FirstReads(old(readFaults), |installed| + (|active| + |overrides|)) && Intact(installed, |installed|, files)
                && Mergeable(active, |active|, files) && HasWork(active, overrides, files)
      ensures stops.None? ==>
                && Planned(active, overrides, planned, missing, files)
                && readFaults == Skip(old(readFaults), |installed| + (|active| + |overrides|))
    {
      ghost var script := readFaults;
      planned, missing := [], {};
      TwoReads(script, |installed|, |active| + |overrides|);
      var intact := CheckActive(installed, []);
      if !intact {
        return Some(Refused), planned, missing;
      }
      var planOk, changes;
      planOk, planned, missing, changes := Plan(active, overrides);
      if !planOk {
        return Some(Refused), planned, missing;
      }
      SomethingToDo(active, overrides, missing, files);
      stops := if changes then None else Some(Unchanged);
    }

    /** Everything before the first write to a managed file. */
    method Prepare(installed: seq<Artifact>, active: seq<Artifact>, overrides: seq<Path>, statePath: Path)
      returns (stops: Option<Outcome>, planned: seq<Option<Content>>, missing: set<Path>, prior: Option<Content>, backups: seq<Backup>)
      modifies this`readFaults, this`writeFaults
      ensures stops.Some? ==> stops.value.Refused? || stops.value.Unchanged?
      ensures stops == Some(Unchanged) <==> NothingToDo(installed, active, overrides, files, old(readFaults))
      ensures stops.None? <==> Proceeds(installed, active, overrides, files, old(readFaults), old(writeFaults))
      ensures stops.None? ==>
                && Planned(active, overrides, planned, missing, files) && prior == At(files, statePath)
                && |backups| == |active| && (forall i :: 0 <= i < |active| ==> backups[i] == Backup(active[i], planned[i]))
                && readFaults == Skip(old(readFaults), ReadsBefore(installed, active, overrides))
                && writeFaults == RestOf(old(writeFaults))
    {
      prior, backups := None, [];
      SkipNext(readFaults, |installed| + (|active| + |overrides|));
      NextRead(readFaults, |installed| + (|active| + |overrides|));
      stops, planned, missing := Examine(installed, active, overrides);
      if stops.Some? {
        return stops, planned, missing, prior, backups;
      }
      var stateRead;
      stateRead, prior := Read(statePath);
      if !stateRead {
        return Some(Refused), planned, missing, prior, backups;
      }
      var backedUp;
      backedUp, backups := StoreBackup(active, planned);
      stops := if backedUp then None else Some(Refused);
    }

    /** The overrides, the final check and the state file. */
    method WriteRest(active: seq<Artifact>, overrides: seq<Path>, missing: set<Path>, statePath: Path, newState: Content, t0: Log,
                     ghost pre: Files) returns (ok: bool, t: Log)
      requires OverridesOk(overrides, active, statePath) && Merged(active, |active|, pre, files)
      requires Written(t0, active, statePath, newState, pre, files, None) && t0.created == [] && !t0.stateAttempted
      requires missing != {} || !Merged(active, |active|, pre, pre)
      requires forall p :: p in missing ==> At(pre, p) == None && p in overrides
      requires forall i :: 0 <= i < |overrides| && At(pre, overrides[i]) == None ==> overrides[i] in missing
      modifies this
      ensures Written(t, active, statePath, newState, pre, files, None) && t.priorState == t0.priorState
      ensures ok ==> Installed(active, overrides, statePath, newState, pre, files)
      ensures RestStage(active, overrides, pre, old(readFaults), old(writeFaults)) == Stage(ok, false, readFaults, writeFaults)
    {
      ghost var merged := files;
      ok, t := WriteOverrides(active, overrides, missing, statePath, newState, t0, pre);
      if !ok {
        return;
      }
      StillMerged(active, overrides, statePath, pre, merged, files);
      ExpectedVerdicts(t, active, overrides, missing, statePath, newState, pre, files);
      ok := CheckActive(active, overrides);
      if !ok {
        return;
      }
      ghost var before := files;
      AllThere(overrides, missing, before);
      var committed;
      ok, committed := Write(statePath, newState);
      t := t.(stateAttempted := true);
      StateWritten(t, active, overrides, missing, statePath, newState, pre, before, files);
      if ok {
        AllInstalled(t, active, overrides, missing, statePath, newState, pre, before);
      }
    }

    /** The writes, and recovery when one of them fails. */
    method Transact(active: seq<Artifact>, overrides: seq<Path>, planned: seq<Option<Content>>, missing: set<Path>, statePath: Path,
                    newState: Content, prior: Option<Content>, backups: seq<Backup>) returns (out: Outcome, ghost lost: Option<Path>)
      requires OverridesOk(overrides, active, statePath) && Planned(active, overrides, planned, missing, files)
      requires BackupsOf(backups, active, files) && prior == At(files, statePath)
      requires missing != {} || !Merged(active, |active|, files, files)
      modifies this
      ensures out.Applied? || out.Recovered? || out.RecoveryFailed?
      ensures out.Applied? ==> Installed(active, overrides, statePath, newState, old(files), files)
      ensures out.Recovered? ==> RecoveredTo(active, lost, old(files), files)
      ensures var stage := TransactStage(active, overrides, old(files), old(readFaults), old(writeFaults));
              && (out.Applied? <==> stage.ok) && (lost.Some? <==> stage.lost)
              && (!stage.ok && Quiet(stage.readScript, stage.writeScript) ==> out.Recovered?)
    {
      ghost var pre := files;
      var t := Log(0, map[], [], false, prior);
      var ok;
      ok, t, lost := WriteActive(active, planned, statePath, newState, t, pre);
      if ok {
        ok, t := WriteRest(active, overrides, missing, statePath, newState, t, pre);
        if ok {
          return Applied, None;
        }
      }
      out := RecoverFrom(t, active, backups, statePath, newState, pre, lost);
    }

    /** Installs or updates all files, or puts everything back. What the state file lists as
        `installed` must still be as it was installed. It is applied exactly when there is something to do,
        the merged contents are accepted, and every read and write works; a single fault never leaves it
        half done, except in the way that `lost` describes. Whether recovery puts everything back is decided
        by the scripts of faults: by a managed write that takes effect and whose reading back fails.
        Then `lost` is its file, and that file alone keeps the merged content. */
    method Install(installed: seq<Artifact>, active: seq<Artifact>, overrides: seq<Path>, statePath: Path, newState: Content)
      returns (out: Outcome, ghost lost: Option<Path>)
      requires DistinctActive(active) && OverridesOk(overrides, active, statePath)
      requires forall i :: 0 <= i < |active| ==> ArtifactOk(active[i])
      modifies this
      ensures out.Applied? ==> Installed(active, overrides, statePath, newState, old(files), files)
      ensures out.Refused? || out.Unchanged? ==> files == old(files)
      ensures out.Unchanged? <==> NothingToDo(installed, active, overrides, old(files), old(readFaults))
      ensures !out.Refused? && !out.Unchanged? <==>
                Proceeds(installed, active, overrides, old(files), old(readFaults), old(writeFaults))
      ensures out.Recovered? ==>
                (files == old(files) <==> LossOf(installed, active, overrides, old(files), old(readFaults), old(writeFaults)).None?)
      ensures out.Recovered? ==> RecoveredTo(active, lost, old(files), files)
      ensures out.Recovered? && ReadsWork(old(readFaults)) ==> files == old(files)
      ensures Proceeds(installed, active, overrides, old(files), old(readFaults), old(writeFaults))
              && LosesQuietly(LossOf(installed, active, overrides, old(files), old(readFaults), old(writeFaults))) ==>
                out.Recovered? && lost.Some?
      ensures out.Applied? <==> Proceeds(installed, active, overrides, old(files), old(readFaults), old(writeFaults))
                                && AllAccepted(active, old(files))
                                && AllServed(installed, active, overrides, old(files), old(readFaults), old(writeFaults))
      ensures FaultsIn(old(readFaults), old(writeFaults)) <= (if AllAccepted(active, old(files)) then 1 else 0) ==> !out.RecoveryFailed?
    {
      lost := None;
      var stops, planned, missing, prior, backups := Prepare(installed, active, overrides, statePath);
      if stops.Some? {
        return stops.value, None;
      }
      BackedUp(backups, active, planned, files);
      SomethingToDo(active, overrides, missing, files);
      InstallTakes(installed, active, overrides, files, old(readFaults), old(writeFaults),
                   TransactStage(active, overrides, files, readFaults, writeFaults));
      InstallLoses(installed, active, overrides, files, old(readFaults), old(writeFaults),
                   TransactStage(active, overrides, files, readFaults, writeFaults));
      out, lost := Transact(active, overrides, planned, missing, statePath, newState, prior, backups);
    }

    method RecoverFrom(t: Log, active: seq<Artifact>, backups: seq<Backup>, statePath: Path, newState: Content, ghost pre: Files,
                       ghost lost: Option<Path>) returns (out: Outcome)
      requires BackupsOf(backups, active, pre) && t.priorState == At(pre, statePath)
      requires Written(t, active, statePath, newState, pre, files, lost)
      requires lost.Some? ==> LeftMerged(active, lost.value, pre, files)
      modifies this
      ensures out == Recovered || out == RecoveryFailed
      ensures Quiet(old(readFaults), old(writeFaults)) ==> out.Recovered?
      ensures out.Recovered? ==> RecoveredTo(active, lost, pre, files)
    {
      var recovered := Recover(t, active, backups, statePath, newState, pre, lost);
      if recovered && lost.None? {
        SameFiles(files, pre);
      }
      out := if recovered then Recovered else RecoveryFailed;
    }
  }

  /** An installation into an empty root, in which the first managed write takes effect and cannot be
      read back: it reports that everything was put back, and the merged content stays. */
  method LostWriteSurvives(a: Artifact, statePath: Path, newState: Content) returns (out: Outcome, files: Files)
    requires ArtifactOk(a) && a.path != statePath && a.merge(None).Some?
    ensures out.Recovered? && files == map[a.path := a.merge(None).value]
  {
    var root := new Root(map[], [], [true, true, true, false]);
    OneFile(a, statePath);
    ghost var lost;
    out, lost := root.Install([], [a], [], statePath, newState);
    files := root.files;
    SameFiles(files, map[a.path := a.merge(None).value]);
  }

  lemma {:induction false} OneFile(a: Artifact, statePath: Path)
    requires a.path != statePath && a.merge(None).Some?
    ensures DistinctActive([a]) && OverridesOk([], [a], statePath)
    ensures Proceeds([], [a], [], map[], [true, true, true, false], [])
    ensures LossOf([], [a], [], map[], [true, true, true, false], []) == Some(([], []))
  {
    assert [a][0] == a && forall i :: 0 <= i < 1 ==> [a][i].path == a.path;
    var readScript := Skip([true, true, true, false], 2);
    assert readScript == [true, false] && RestOf(readScript) == [false] && RestOf([false]) == [];
    assert At(map[], a.path) == None;
  }

  lemma {:induction false} SameFiles(a: Files, b: Files)
    requires forall p :: At(a, p) == At(b, p)
    ensures a == b
  {
    forall p
      ensures p in a <==> p in b
      ensures p in a ==> a[p] == b[p]
    {
      assert At(a, p) == At(b, p);
    }
  }

  /** The first `n` managed files can be merged. */
  ghost predicate Mergeable(active: seq<Artifact>, n: nat, files: Files)
    requires n <= |active|
  {
    forall i :: 0 <= i < n ==> active[i].merge(At(files, active[i].path)).Some?
  }

  /** The reads before the first managed file is looked at again. */
  function ReadsBefore(installed: seq<Artifact>, active: seq<Artifact>, overrides: seq<Path>): nat {
    |installed| + |active| + |overrides| + 1
  }

  /** The installation gets as far as its first write: everything can be read, the installed files are
      intact, the new ones can be merged, something is to be changed, and the backup is stored. */
  ghost predicate Proceeds(installed: seq<Artifact>, active: seq<Artifact>, overrides: seq<Path>, files: Files, readScript: seq<bool>,
                           writeScript: seq<Fault>) {
    && FirstReads(readScript, ReadsBefore(installed, active, overrides))
    && Intact(installed, |installed|, files) && Mergeable(active, |active|, files)
    && HasWork(active, overrides, files) && FirstFault(writeScript).Works?
  }

  /** How far the scripts of faults let a part of the transaction get, and what is left of them then. A
      managed write is `lost` when it takes effect and its reading back fails. */
  datatype Stage = Stage(ok: bool, lost: bool, readScript: seq<bool>, writeScript: seq<Fault>)

  /** A write that is read back. */
  ghost function WriteStep(readScript: seq<bool>, writeScript: seq<Fault>): Stage {
    if FirstFault(writeScript).LostBefore? then Stage(false, false, readScript, RestOf(writeScript))
    else Stage(FirstReadWorks(readScript) && FirstFault(writeScript).Works?, !FirstReadWorks(readScript), RestOf(readScript), RestOf(writeScript))
  }

  /** One managed file that holds `c`. */
  ghost function ActiveStep(a: Artifact, c: Option<Content>, readScript: seq<bool>, writeScript: seq<Fault>): Stage {
    if !FirstReadWorks(readScript) || a.merge(c).None? then Stage(false, false, RestOf(readScript), writeScript)
    else if a.merge(c) == c then Stage(true, false, RestOf(readScript), writeScript)
    else WriteStep(RestOf(readScript), writeScript)
  }

  /** The managed files from the `i`th on. */
  ghost function ActiveStage(active: seq<Artifact>, i: nat, pre: Files, readScript: seq<bool>, writeScript: seq<Fault>): Stage
    decreases |active| - i
  {
    if i >= |active| then Stage(true, false, readScript, writeScript)
    else
      var step := ActiveStep(active[i], At(pre, active[i].path), readScript, writeScript);
      if step.ok then ActiveStage(active, i + 1, pre, step.readScript, step.writeScript) else step
  }

  /** One missing override. */
  ghost function OverrideStep(readScript: seq<bool>, writeScript: seq<Fault>): Stage {
    if !FirstReadWorks(readScript) then Stage(false, false, RestOf(readScript), writeScript)
    else WriteStep(RestOf(readScript), writeScript).(lost := false)
  }

  /** The overrides from the `i`th on. */
  ghost function OverrideStage(overrides: seq<Path>, i: nat, pre: Files, readScript: seq<bool>, writeScript: seq<Fault>): Stage
    decreases |overrides| - i
  {
    if i >= |overrides| then Stage(true, false, readScript, writeScript)
    else if At(pre, overrides[i]).Some? then OverrideStage(overrides, i + 1, pre, readScript, writeScript)
    else
      var step := OverrideStep(readScript, writeScript);
      if step.ok then OverrideStage(overrides, i + 1, pre, step.readScript, step.writeScript) else step
  }

  /** The final check: one read for each file. */
  function CheckStage(verdicts: seq<bool>, i: nat, readScript: seq<bool>): (bool, seq<bool>)
    decreases |verdicts| - i
  {
    if i >= |verdicts| then (true, readScript)
    else if FirstReadWorks(readScript) && verdicts[i] then CheckStage(verdicts, i + 1, RestOf(readScript))
    else (false, RestOf(readScript))
  }

  lemma {:induction false} CheckStageIff(verdicts: seq<bool>, i: nat, readScript: seq<bool>)
    requires i <= |verdicts|
    ensures var (ok, left) := CheckStage(verdicts, i, readScript);
            && (ok <==> FirstReads(readScript, |verdicts| - i) && forall j :: i <= j < |verdicts| ==> verdicts[j])
            && (ok ==> left == Skip(readScript, |verdicts| - i))
    decreases |verdicts| - i
  {
    if i < |verdicts| {
      CheckStageIff(verdicts, i + 1, RestOf(readScript));
      TwoReads(readScript, 1, |verdicts| - i - 1);
      assert Skip(readScript, 1) == RestOf(readScript);
      assert FirstReads(readScript, 1) <==> FirstReadWorks(readScript);
    }
  }

  /** What the final check of everything finds. */
  lemma {:induction false} CheckMeans(active: seq<Artifact>, overrides: seq<Path>, files: Files, readScript: seq<bool>)
    ensures var (ok, left) := CheckStage(Verdicts(active, overrides, files), 0, readScript);
            && (ok <==> FirstReads(readScript, |active| + |overrides|) && Intact(active, |active|, files)
                        && forall i :: 0 <= i < |overrides| ==> At(files, overrides[i]) != None)
            && (ok ==> left == Skip(readScript, |active| + |overrides|))
  {
    CheckStageIff(Verdicts(active, overrides, files), 0, readScript);
    VerdictsMean(active, overrides, files);
  }

  lemma {:induction false} VerdictsMean(active: seq<Artifact>, overrides: seq<Path>, files: Files)
    ensures (forall i :: 0 <= i < |active| + |overrides| ==> Verdicts(active, overrides, files)[i]) <==>
              Intact(active, |active|, files) && forall i :: 0 <= i < |overrides| ==> At(files, overrides[i]) != None
  {
    var verdicts := Verdicts(active, overrides, files);
    if forall i :: 0 <= i < |active| + |overrides| ==> verdicts[i] {
      forall i | 0 <= i < |active|
        ensures Passes(active[i], At(files, active[i].path))
      {
        assert verdicts[i];
      }
      forall i | 0 <= i < |overrides|
        ensures At(files, overrides[i]) != None
      {
        assert verdicts[|active| + i];
      }
    }
  }

  /** Restoring one file that holds `current`. */
  function RestoreStep(b: Backup, current: Option<Content>, keep: bool, readScript: seq<bool>, writeScript: seq<Fault>): Stage {
    var left := if b.prior.Some? && FirstReadWorks(readScript) then RestOf(RestOf(readScript)) else RestOf(readScript);
    if !FirstReadWorks(readScript) || (b.prior.Some? && !FirstReadWorks(RestOf(readScript))) then Stage(false, false, left, writeScript)
    else if Restored(b, current, keep).None? then Stage(false, false, left, writeScript)
    else if b.prior.None? && current.None? then Stage(true, false, left, writeScript)
    else Stage(FirstFault(writeScript).Works?, false, left, RestOf(writeScript))
  }

  /** Restoring the chosen files from the `i`th backup on. */
  function RestoreStage(backups: seq<Backup>, i: nat, chosen: set<Path>, keep: bool, pre: Files, readScript: seq<bool>, writeScript: seq<Fault>): Stage
    decreases |backups| - i
  {
    if i >= |backups| then Stage(true, false, readScript, writeScript)
    else if backups[i].artifact.path !in chosen then RestoreStage(backups, i + 1, chosen, keep, pre, readScript, writeScript)
    else
      var step := RestoreStep(backups[i], At(pre, backups[i].artifact.path), keep, readScript, writeScript);
      if step.ok then RestoreStage(backups, i + 1, chosen, keep, pre, step.readScript, step.writeScript) else step
  }

  /** Which files pass the final check. */
  ghost function Verdicts(active: seq<Artifact>, overrides: seq<Path>, files: Files): seq<bool> {
    seq(|active| + |overrides|, i requires 0 <= i < |active| + |overrides| =>
      if i < |active| then Passes(active[i], At(files, active[i].path)) else At(files, overrides[i - |active|]).Some?)
  }

  predicate Passes(a: Artifact, c: Option<Content>) {
    c.Some? && a.accepts(c.value)
  }

  ghost function CheckAndState(active: seq<Artifact>, overrides: seq<Path>, pre: Files, readScript: seq<bool>, writeScript: seq<Fault>): Stage {
    var (ok, left) := CheckStage(Expected(active, overrides, pre), 0, readScript);
    if ok then Stage(FirstFault(writeScript).Works?, false, left, RestOf(writeScript)) else Stage(false, false, left, writeScript)
  }

  /** Everything behind the managed files. */
  ghost function RestStage(active: seq<Artifact>, overrides: seq<Path>, pre: Files, readScript: seq<bool>, writeScript: seq<Fault>): Stage {
    var o := OverrideStage(overrides, 0, pre, readScript, writeScript);
    if o.ok then CheckAndState(active, overrides, pre, o.readScript, o.writeScript) else o
  }

  /** The whole transaction. */
  ghost function TransactStage(active: seq<Artifact>, overrides: seq<Path>, pre: Files, readScript: seq<bool>, writeScript: seq<Fault>): Stage {
    var a := ActiveStage(active, 0, pre, readScript, writeScript);
    if a.ok then RestStage(active, overrides, pre, a.readScript, a.writeScript) else a
  }

  /** Which files are going to pass the final check. */
  ghost function Expected(active: seq<Artifact>, overrides: seq<Path>, pre: Files): seq<bool> {
    seq(|active| + |overrides|, i requires 0 <= i < |active| + |overrides| =>
      i < |active| ==> Passes(active[i], active[i].merge(At(pre, active[i].path))))
  }

  /** The installation finds that everything is as it is to be. */
  ghost predicate NothingToDo(installed: seq<Artifact>, active: seq<Artifact>, overrides: seq<Path>, files: Files, readScript: seq<bool>) {
    && FirstReads(readScript, |installed| + (|active| + |overrides|))
    && Intact(installed, |installed|, files) && Mergeable(active, |active|, files) && !HasWork(active, overrides, files)
  }

  /** Where a managed write is lost, what is left of the scripts then. */
  ghost function Loss(active: seq<Artifact>, pre: Files, readScript: seq<bool>, writeScript: seq<Fault>): Option<(seq<bool>, seq<Fault>)> {
    var a := ActiveStage(active, 0, pre, readScript, writeScript);
    if a.lost then Some((a.readScript, a.writeScript)) else None
  }

  /** The same for the scripts with which an installation starts. */
  ghost function LossOf(installed: seq<Artifact>, active: seq<Artifact>, overrides: seq<Path>, files: Files, readScript: seq<bool>,
                        writeScript: seq<Fault>): Option<(seq<bool>, seq<Fault>)> {
    Loss(active, files, Skip(readScript, ReadsBefore(installed, active, overrides)), RestOf(writeScript))
  }

  /** Nothing is lost while reads work. */
  lemma {:induction false} NoLoss(active: seq<Artifact>, i: nat, pre: Files, readScript: seq<bool>, writeScript: seq<Fault>)
    requires ReadsWork(readScript)
    ensures !ActiveStage(active, i, pre, readScript, writeScript).lost
    decreases |active| - i
  {
    if i < |active| {
      var step := ActiveStep(active[i], At(pre, active[i].path), readScript, writeScript);
      if step.ok {
        NoLoss(active, i + 1, pre, step.readScript, step.writeScript);
      }
    }
  }

  // -------------------------------------------------------------- when an installation is applied

  /** Whether merging changes a file. */
  function OneIfChanging(a: Artifact, c: Option<Content>): nat {
    if a.merge(c) == c then 0 else 1
  }

  /** How many of the managed files from `i` on merging changes. */
  function Changing(active: seq<Artifact>, i: nat, files: Files): nat
    decreases |active| - i
  {
    if i >= |active| then 0 else OneIfChanging(active[i], At(files, active[i].path)) + Changing(active, i + 1, files)
  }

  /** How many of the overrides from `i` on are missing. */
  function Missing(overrides: seq<Path>, i: nat, files: Files): nat
    decreases |overrides| - i
  {
    if i >= |overrides| then 0 else (if At(files, overrides[i]) == None then 1 else 0) + Missing(overrides, i + 1, files)
  }

  /** What merging makes of the managed files passes their final check. */
  ghost predicate AllAccepted(active: seq<Artifact>, files: Files) {
    forall i :: 0 <= i < |active| ==> Passes(active[i], active[i].merge(At(files, active[i].path)))
  }

  /** The reads of the transaction: one for every managed file, one for everything that is written but
      the state file, one more for a missing override, and one for every file at the end. */
  ghost function TransactReads(active: seq<Artifact>, overrides: seq<Path>, files: Files): nat {
    |active| + Changing(active, 0, files) + 2 * Missing(overrides, 0, files) + |active| + |overrides|
  }

  /** Its writes: every managed file that changes, every missing override, and the state file. */
  ghost function TransactWrites(active: seq<Artifact>, overrides: seq<Path>, files: Files): nat {
    Changing(active, 0, files) + Missing(overrides, 0, files) + 1
  }

  /** Everything from the start of an installation, with the write of the backup, works. */
  ghost predicate AllServed(installed: seq<Artifact>, active: seq<Artifact>, overrides: seq<Path>, files: Files,
                            readScript: seq<bool>, writeScript: seq<Fault>) {
    Served(readScript, writeScript, ReadsBefore(installed, active, overrides) + TransactReads(active, overrides, files),
           1 + TransactWrites(active, overrides, files))
  }

  /** `Stage` got through with exactly these reads and writes, or failed at one of them. */
  ghost predicate Took(stage: Stage, readScript: seq<bool>, writeScript: seq<Fault>, r: nat, w: nat) {
    && (stage.ok <==> Served(readScript, writeScript, r, w))
    && (stage.ok ==> stage.readScript == Skip(readScript, r) && stage.writeScript == Skip(writeScript, w))
    && FaultsIn(stage.readScript, stage.writeScript) + (if stage.ok then 0 else 1) <= FaultsIn(readScript, writeScript)
  }

  /** One stage behind another. */
  lemma {:induction false} TookMore(first: Stage, last: Stage, readScript: seq<bool>, writeScript: seq<Fault>, r: nat, w: nat,
                                    moreReads: nat, moreWrites: nat, allReads: nat, allWrites: nat)
    requires Took(first, readScript, writeScript, r, w)
    requires if first.ok then Took(last, first.readScript, first.writeScript, moreReads, moreWrites) else last == first
    requires allReads == r + moreReads && allWrites == w + moreWrites
    ensures Took(last, readScript, writeScript, allReads, allWrites)
  {
    ServedMore(readScript, writeScript, r, w, moreReads, moreWrites);
  }

  /** One read, and one read and one write. */
  lemma {:induction false} TookOne(readScript: seq<bool>, writeScript: seq<Fault>, lost: bool)
    ensures Took(Stage(FirstReadWorks(readScript), lost, RestOf(readScript), writeScript), readScript, writeScript, 1, 0)
    ensures Took(Stage(FirstFault(writeScript).Works?, lost, readScript, RestOf(writeScript)), readScript, writeScript, 0, 1)
    ensures Took(Stage(true, lost, readScript, writeScript), readScript, writeScript, 0, 0)
  {
    ServedNext(readScript, writeScript);
  }

  lemma {:induction false} TookWrite(readScript: seq<bool>, writeScript: seq<Fault>)
    ensures Took(WriteStep(readScript, writeScript), readScript, writeScript, 1, 1)
  {
    ServedNext(readScript, writeScript);
  }

  lemma {:induction false} TookRead(last: Stage, readScript: seq<bool>, writeScript: seq<Fault>, r: nat, w: nat)
    requires if FirstReadWorks(readScript) then Took(last, RestOf(readScript), writeScript, r, w)
             else last == Stage(false, false, RestOf(readScript), writeScript)
    ensures Took(last, readScript, writeScript, 1 + r, w)
  {
    TookOne(readScript, writeScript, false);
    TookMore(Stage(FirstReadWorks(readScript), false, RestOf(readScript), writeScript), last, readScript, writeScript, 1, 0, r, w, 1 + r, w);
  }

  lemma {:induction false} ActiveTakesOne(a: Artifact, c: Option<Content>, readScript: seq<bool>, writeScript: seq<Fault>)
    requires a.merge(c).Some?
    ensures Took(ActiveStep(a, c, readScript, writeScript), readScript, writeScript, 1 + OneIfChanging(a, c), OneIfChanging(a, c))
  {
    TookWrite(RestOf(readScript), writeScript);
    TookOne(RestOf(readScript), writeScript, false);
    TookRead(ActiveStep(a, c, readScript, writeScript), readScript, writeScript, OneIfChanging(a, c), OneIfChanging(a, c));
  }

  /** Anything that says what a stage takes, the way `Took` does. */
  type Taking = (Stage, seq<bool>, seq<Fault>, nat, nat) -> bool

  ghost predicate ComposesAt(took: Taking, first: Stage, last: Stage, readScript: seq<bool>, writeScript: seq<Fault>,
                             r: nat, w: nat, moreReads: nat, moreWrites: nat) {
    took(first, readScript, writeScript, r, w)
    && (if first.ok then took(last, first.readScript, first.writeScript, moreReads, moreWrites) else last == first)
    ==> took(last, readScript, writeScript, r + moreReads, w + moreWrites)
  }

  ghost predicate StepsAt(took: Taking, a: Artifact, c: Option<Content>, readScript: seq<bool>, writeScript: seq<Fault>) {
    a.merge(c).Some? ==> took(ActiveStep(a, c, readScript, writeScript), readScript, writeScript, 1 + OneIfChanging(a, c), OneIfChanging(a, c))
  }

  ghost predicate StartsAt(took: Taking, readScript: seq<bool>, writeScript: seq<Fault>) {
    took(Stage(true, false, readScript, writeScript), readScript, writeScript, 0, 0)
  }

  ghost predicate AddsUp(took: Taking) {
    && (forall readScript, writeScript :: StartsAt(took, readScript, writeScript))
    && (forall a, c, readScript, writeScript :: StepsAt(took, a, c, readScript, writeScript))
    && (forall first, last, readScript, writeScript, r: nat, w: nat, moreReads: nat, moreWrites: nat ::
          ComposesAt(took, first, last, readScript, writeScript, r, w, moreReads, moreWrites))
  }

  ghost function TookFn(): Taking {
    (stage: Stage, readScript: seq<bool>, writeScript: seq<Fault>, r: nat, w: nat) => Took(stage, readScript, writeScript, r, w)
  }

  lemma {:induction false} TookAddsUp()
    ensures AddsUp(TookFn())
  {
    forall readScript, writeScript
      ensures StartsAt(TookFn(), readScript, writeScript)
    {
      TookOne(readScript, writeScript, false);
    }
    forall a, c, readScript, writeScript
      ensures StepsAt(TookFn(), a, c, readScript, writeScript)
    {
      if a.merge(c).Some? {
        ActiveTakesOne(a, c, readScript, writeScript);
      }
    }
    forall first, last, readScript, writeScript, r: nat, w: nat, moreReads: nat, moreWrites: nat
      ensures ComposesAt(TookFn(), first, last, readScript, writeScript, r, w, moreReads, moreWrites)
    {
      TookTwice(first, last, readScript, writeScript, r, w, moreReads, moreWrites);
    }
  }

  lemma {:induction false} TookTwice(first: Stage, last: Stage, readScript: seq<bool>, writeScript: seq<Fault>, r: nat, w: nat,
                                     moreReads: nat, moreWrites: nat)
    ensures ComposesAt(TookFn(), first, last, readScript, writeScript, r, w, moreReads, moreWrites)
  {
    if Took(first, readScript, writeScript, r, w)
       && (if first.ok then Took(last, first.readScript, first.writeScript, moreReads, moreWrites) else last == first) {
      TookMore(first, last, readScript, writeScript, r, w, moreReads, moreWrites, r + moreReads, w + moreWrites);
    }
  }

  lemma {:induction false} AddedUp(took: Taking, first: Stage, last: Stage, readScript: seq<bool>, writeScript: seq<Fault>,
                                   one: nat, r: nat, w: nat, allReads: nat, allWrites: nat)
    requires AddsUp(took) && took(first, readScript, writeScript, 1 + one, one)
    requires if first.ok then took(last, first.readScript, first.writeScript, r, w) else last == first
    requires allReads == 1 + one + r && allWrites == one + w
    ensures took(last, readScript, writeScript, allReads, allWrites)
  {
    assert ComposesAt(took, first, last, readScript, writeScript, 1 + one, one, r, w);
  }

  lemma {:induction false} ActiveFirst(took: Taking, active: seq<Artifact>, i: nat, pre: Files, readScript: seq<bool>, writeScript: seq<Fault>)
    requires AddsUp(took) && i < |active| && Mergeable(active, |active|, pre)
    ensures var c := At(pre, active[i].path);
            var step, one := ActiveStep(active[i], c, readScript, writeScript), OneIfChanging(active[i], c);
            && took(step, readScript, writeScript, 1 + one, one)
            && ActiveStage(active, i, pre, readScript, writeScript)
               == (if step.ok then ActiveStage(active, i + 1, pre, step.readScript, step.writeScript) else step)
            && Changing(active, i, pre) == one + Changing(active, i + 1, pre)
  {
    assert StepsAt(took, active[i], At(pre, active[i].path), readScript, writeScript);
  }

  lemma {:induction false} ActiveAddsUp(took: Taking, active: seq<Artifact>, i: nat, pre: Files, readScript: seq<bool>, writeScript: seq<Fault>)
    requires AddsUp(took) && i <= |active| && Mergeable(active, |active|, pre)
    ensures took(ActiveStage(active, i, pre, readScript, writeScript), readScript, writeScript,
                 |active| - i + Changing(active, i, pre), Changing(active, i, pre))
    decreases |active| - i
  {
    if i >= |active| {
      assert StartsAt(took, readScript, writeScript);
    } else {
      var c := At(pre, active[i].path);
      var step := ActiveStep(active[i], c, readScript, writeScript);
      ActiveFirst(took, active, i, pre, readScript, writeScript);
      if step.ok {
        ActiveAddsUp(took, active, i + 1, pre, step.readScript, step.writeScript);
      }
      AddedUp(took, step, ActiveStage(active, i, pre, readScript, writeScript), readScript, writeScript, OneIfChanging(active[i], c),
              |active| - (i + 1) + Changing(active, i + 1, pre), Changing(active, i + 1, pre),
              |active| - i + Changing(active, i, pre), Changing(active, i, pre));
    }
  }

  lemma {:induction false} ActiveTakes(active: seq<Artifact>, i: nat, pre: Files, readScript: seq<bool>, writeScript: seq<Fault>)
    requires i <= |active| && Mergeable(active, |active|, pre)
    ensures Took(ActiveStage(active, i, pre, readScript, writeScript), readScript, writeScript,
                 |active| - i + Changing(active, i, pre), Changing(active, i, pre))
  {
    TookAddsUp();
    ActiveAddsUp(TookFn(), active, i, pre, readScript, writeScript);
  }

  /** Restoring reads every file, and its backup if there is one. */
  function RestoreReads(backups: seq<Backup>, i: nat, chosen: set<Path>): nat
    decreases |backups| - i
  {
    if i >= |backups| then 0
    else (if backups[i].artifact.path !in chosen then 0 else if backups[i].prior.Some? then 2 else 1) + RestoreReads(backups, i + 1, chosen)
  }

  /** Restoring writes every file, but for those that were absent and still are. */
  function RestoreWrites(backups: seq<Backup>, i: nat, chosen: set<Path>, files: Files): nat
    decreases |backups| - i
  {
    if i >= |backups| then 0
    else
      var p := backups[i].artifact.path;
      (if p in chosen && (backups[i].prior.Some? || At(files, p).Some?) then 1 else 0) + RestoreWrites(backups, i + 1, chosen, files)
  }

  lemma {:induction false} RestoreTakesOne(b: Backup, current: Option<Content>, keep: bool, readScript: seq<bool>, writeScript: seq<Fault>)
    ensures var step := RestoreStep(b, current, keep, readScript, writeScript);
            if Restored(b, current, keep).Some?
            then Took(step, readScript, writeScript, if b.prior.Some? then 2 else 1, if b.prior.Some? || current.Some? then 1 else 0)
            else !step.ok && FaultsIn(step.readScript, step.writeScript) <= FaultsIn(readScript, writeScript)
  {
    ServedNext(readScript, writeScript);
    UsedUp(readScript, writeScript);
    UsedUp(RestOf(readScript), writeScript);
    assert Served(readScript, writeScript, 2, 0) <==> FirstReadWorks(readScript) && FirstReadWorks(RestOf(readScript));
  }

  lemma {:induction false} UsedUp(readScript: seq<bool>, writeScript: seq<Fault>)
    ensures FailingReads(readScript) == FailingReads(RestOf(readScript)) + if FirstReadWorks(readScript) then 0 else 1
    ensures FailingWrites(writeScript) == FailingWrites(RestOf(writeScript)) + if FirstFault(writeScript).Works? then 0 else 1
  {
  }

  lemma {:induction false} QuietlyRestored(backups: seq<Backup>, chosen: set<Path>, keep: bool, pre: Files,
                                           readScript: seq<bool>, writeScript: seq<Fault>)
    requires Restorable(backups, chosen, keep, pre) && Quiet(readScript, writeScript)
    ensures var stage := RestoreStage(backups, 0, chosen, keep, pre, readScript, writeScript);
            stage.ok && Quiet(stage.readScript, stage.writeScript)
  {
    var stage := RestoreStage(backups, 0, chosen, keep, pre, readScript, writeScript);
    RestoreTakes(backups, 0, chosen, keep, pre, readScript, writeScript);
    QuietMeans(readScript, writeScript);
    QuietMeans(stage.readScript, stage.writeScript);
  }

  lemma {:induction false} RestoreTakes(backups: seq<Backup>, i: nat, chosen: set<Path>, keep: bool, pre: Files,
                                        readScript: seq<bool>, writeScript: seq<Fault>)
    ensures var stage := RestoreStage(backups, i, chosen, keep, pre, readScript, writeScript);
            && (Restorable(backups, chosen, keep, pre) ==>
                  Took(stage, readScript, writeScript, RestoreReads(backups, i, chosen), RestoreWrites(backups, i, chosen, pre)))
            && FaultsIn(stage.readScript, stage.writeScript) <= FaultsIn(readScript, writeScript)
    decreases |backups| - i
  {
    TookOne(readScript, writeScript, false);
    if i < |backups| && backups[i].artifact.path !in chosen {
      RestoreTakes(backups, i + 1, chosen, keep, pre, readScript, writeScript);
    } else if i < |backups| {
      var current := At(pre, backups[i].artifact.path);
      var step := RestoreStep(backups[i], current, keep, readScript, writeScript);
      RestoreTakesOne(backups[i], current, keep, readScript, writeScript);
      if step.ok {
        RestoreTakes(backups, i + 1, chosen, keep, pre, step.readScript, step.writeScript);
      }
      if Restorable(backups, chosen, keep, pre) {
        TookMore(step, RestoreStage(backups, i, chosen, keep, pre, readScript, writeScript), readScript, writeScript,
                 if backups[i].prior.Some? then 2 else 1, if backups[i].prior.Some? || current.Some? then 1 else 0,
                 RestoreReads(backups, i + 1, chosen), RestoreWrites(backups, i + 1, chosen, pre),
                 RestoreReads(backups, i, chosen), RestoreWrites(backups, i, chosen, pre));
      }
    }
  }

  /** When a file cannot be restored, restoring fails. */
  lemma {:induction false} NotRestorable(backups: seq<Backup>, i: nat, chosen: set<Path>, keep: bool, pre: Files,
                                         readScript: seq<bool>, writeScript: seq<Fault>, j: nat)
    requires i <= j < |backups| && backups[j].artifact.path in chosen
    requires Restored(backups[j], At(pre, backups[j].artifact.path), keep).None?
    ensures !RestoreStage(backups, i, chosen, keep, pre, readScript, writeScript).ok
    decreases |backups| - i
  {
    if i < j {
      var step := RestoreStep(backups[i], At(pre, backups[i].artifact.path), keep, readScript, writeScript);
      NotRestorable(backups, i + 1, chosen, keep, pre, readScript, writeScript, j);
      NotRestorable(backups, i + 1, chosen, keep, pre, step.readScript, step.writeScript, j);
    }
  }

  lemma {:induction false} OverridesTake(overrides: seq<Path>, i: nat, pre: Files, readScript: seq<bool>, writeScript: seq<Fault>)
    requires i <= |overrides|
    ensures Took(OverrideStage(overrides, i, pre, readScript, writeScript), readScript, writeScript,
                 2 * Missing(overrides, i, pre), Missing(overrides, i, pre))
    decreases |overrides| - i
  {
    var last := OverrideStage(overrides, i, pre, readScript, writeScript);
    TookOne(readScript, writeScript, false);
    if i < |overrides| {
      if At(pre, overrides[i]).Some? {
        OverridesTake(overrides, i + 1, pre, readScript, writeScript);
      } else {
        var step := OverrideStep(readScript, writeScript);
        StepTakes(readScript, writeScript);
        if step.ok {
          OverridesTake(overrides, i + 1, pre, step.readScript, step.writeScript);
        }
        TookMore(step, last, readScript, writeScript, 2, 1, 2 * Missing(overrides, i + 1, pre), Missing(overrides, i + 1, pre),
                 2 * Missing(overrides, i, pre), Missing(overrides, i, pre));
      }
    }
  }

  lemma {:induction false} StepTakes(readScript: seq<bool>, writeScript: seq<Fault>)
    ensures Took(OverrideStep(readScript, writeScript), readScript, writeScript, 2, 1)
  {
    TookWrite(RestOf(readScript), writeScript);
    TookRead(OverrideStep(readScript, writeScript), readScript, writeScript, 1, 1);
  }

  /** A final check that all files pass. */
  lemma {:induction false} ChecksTake(verdicts: seq<bool>, i: nat, readScript: seq<bool>, writeScript: seq<Fault>)
    requires i <= |verdicts| && forall j :: 0 <= j < |verdicts| ==> verdicts[j]
    ensures var (ok, left) := CheckStage(verdicts, i, readScript);
            Took(Stage(ok, false, left, writeScript), readScript, writeScript, |verdicts| - i, 0)
    decreases |verdicts| - i
  {
    var (ok, left) := CheckStage(verdicts, i, readScript);
    TookOne(readScript, writeScript, false);
    if i < |verdicts| {
      var read := Stage(FirstReadWorks(readScript), false, RestOf(readScript), writeScript);
      if read.ok {
        ChecksTake(verdicts, i + 1, RestOf(readScript), writeScript);
      }
      TookMore(read, Stage(ok, false, left, writeScript), readScript, writeScript, 1, 0, |verdicts| - i - 1, 0, |verdicts| - i, 0);
    }
  }

  lemma {:induction false} ExpectedMean(active: seq<Artifact>, overrides: seq<Path>, pre: Files)
    ensures (forall i :: 0 <= i < |active| + |overrides| ==> Expected(active, overrides, pre)[i]) <==> AllAccepted(active, pre)
  {
    forall i | 0 <= i < |active|
      ensures Expected(active, overrides, pre)[i] <==> Passes(active[i], active[i].merge(At(pre, active[i].path)))
    {
    }
  }

  lemma {:induction false} RestTakes(active: seq<Artifact>, overrides: seq<Path>, pre: Files, readScript: seq<bool>, writeScript: seq<Fault>,
                                     stage: Stage)
    requires AllAccepted(active, pre) && stage == RestStage(active, overrides, pre, readScript, writeScript)
    ensures Took(stage, readScript, writeScript, 2 * Missing(overrides, 0, pre) + (|active| + |overrides|), Missing(overrides, 0, pre) + 1)
  {
    var o := OverrideStage(overrides, 0, pre, readScript, writeScript);
    OverridesTake(overrides, 0, pre, readScript, writeScript);
    if o.ok {
      CheckAndStateTake(active, overrides, pre, o.readScript, o.writeScript);
    }
    TookMore(o, stage, readScript, writeScript, 2 * Missing(overrides, 0, pre), Missing(overrides, 0, pre), |active| + |overrides|, 1,
             2 * Missing(overrides, 0, pre) + (|active| + |overrides|), Missing(overrides, 0, pre) + 1);
  }

  lemma {:induction false} CheckAndStateTake(active: seq<Artifact>, overrides: seq<Path>, pre: Files, readScript: seq<bool>, writeScript: seq<Fault>)
    requires AllAccepted(active, pre)
    ensures Took(CheckAndState(active, overrides, pre, readScript, writeScript), readScript, writeScript, |active| + |overrides|, 1)
  {
    var verdicts := Expected(active, overrides, pre);
    var (ok, left) := CheckStage(verdicts, 0, readScript);
    ExpectedMean(active, overrides, pre);
    ChecksTake(verdicts, 0, readScript, writeScript);
    TookOne(left, writeScript, false);
    TookMore(Stage(ok, false, left, writeScript), CheckAndState(active, overrides, pre, readScript, writeScript),
             readScript, writeScript, |active| + |overrides|, 0, 0, 1, |active| + |overrides|, 1);
  }

  /** The transaction gets through exactly when every merged content is accepted and every read and
      write works; otherwise at least one fault is used up. */
  lemma {:induction false} TransactTakes(active: seq<Artifact>, overrides: seq<Path>, pre: Files, readScript: seq<bool>, writeScript: seq<Fault>,
                                         stage: Stage, r: nat, w: nat)
    requires Mergeable(active, |active|, pre) && AllAccepted(active, pre)
    requires stage == TransactStage(active, overrides, pre, readScript, writeScript)
    requires r == TransactReads(active, overrides, pre) && w == TransactWrites(active, overrides, pre)
    ensures Took(stage, readScript, writeScript, r, w)
  {
    ActiveTakes(active, 0, pre, readScript, writeScript);
    var a := ActiveStage(active, 0, pre, readScript, writeScript);
    if a.ok {
      RestTakes(active, overrides, pre, a.readScript, a.writeScript, stage);
    }
    var n, m := Changing(active, 0, pre), Missing(overrides, 0, pre);
    TookMore(a, stage, readScript, writeScript, |active| - 0 + n, n, 2 * m + (|active| + |overrides|), m + 1, r, w);
  }

  lemma {:induction false} FewerLater(readScript: seq<bool>, writeScript: seq<Fault>, r: nat, w: nat)
    ensures FaultsIn(Skip(readScript, r), Skip(writeScript, w)) <= FaultsIn(readScript, writeScript)
  {
    FewerReads(readScript, r);
    FewerWrites(writeScript, w);
  }

  lemma {:induction false} FewerReads(readScript: seq<bool>, n: nat)
    ensures FailingReads(Skip(readScript, n)) <= FailingReads(readScript)
  {
    if n > 0 && readScript != [] {
      FewerReads(readScript[1..], n - 1);
      TwoReads(readScript, 1, n - 1);
    }
  }

  lemma {:induction false} FewerWrites(writeScript: seq<Fault>, n: nat)
    ensures FailingWrites(Skip(writeScript, n)) <= FailingWrites(writeScript)
  {
    if n > 0 && writeScript != [] {
      FewerWrites(writeScript[1..], n - 1);
      TwoWrites(writeScript, 1, n - 1);
    }
  }

  lemma {:induction false} CheckLeaves(verdicts: seq<bool>, i: nat, readScript: seq<bool>)
    ensures FailingReads(CheckStage(verdicts, i, readScript).1) <= FailingReads(readScript)
    decreases |verdicts| - i
  {
    if i < |verdicts| {
      CheckLeaves(verdicts, i + 1, RestOf(readScript));
    }
  }

  /** Also when the final check fails, the faults that are left are among those at the start. */
  lemma {:induction false} TransactLeaves(active: seq<Artifact>, overrides: seq<Path>, pre: Files, readScript: seq<bool>, writeScript: seq<Fault>,
                                          stage: Stage)
    requires Mergeable(active, |active|, pre)
    requires stage == TransactStage(active, overrides, pre, readScript, writeScript)
    ensures FaultsIn(stage.readScript, stage.writeScript) <= FaultsIn(readScript, writeScript)
  {
    var a := ActiveStage(active, 0, pre, readScript, writeScript);
    ActiveTakes(active, 0, pre, readScript, writeScript);
    if a.ok {
      RestLeaves(active, overrides, pre, a.readScript, a.writeScript, stage);
    }
  }

  lemma {:induction false} RestLeaves(active: seq<Artifact>, overrides: seq<Path>, pre: Files, readScript: seq<bool>, writeScript: seq<Fault>,
                                      stage: Stage)
    requires stage == RestStage(active, overrides, pre, readScript, writeScript)
    ensures FaultsIn(stage.readScript, stage.writeScript) <= FaultsIn(readScript, writeScript)
  {
    var o := OverrideStage(overrides, 0, pre, readScript, writeScript);
    OverridesTake(overrides, 0, pre, readScript, writeScript);
    CheckLeaves(Expected(active, overrides, pre), 0, o.readScript);
  }

  /** Only writes of managed files are lost. */
  lemma {:induction false} LostAmongActive(active: seq<Artifact>, overrides: seq<Path>, pre: Files, readScript: seq<bool>,
                                           writeScript: seq<Fault>, stage: Stage)
    requires stage == TransactStage(active, overrides, pre, readScript, writeScript)
    ensures Loss(active, pre, readScript, writeScript) == if stage.lost then Some((stage.readScript, stage.writeScript)) else None
  {
    var a := ActiveStage(active, 0, pre, readScript, writeScript);
    if a.ok {
      OverridesAreNotLost(overrides, 0, pre, a.readScript, a.writeScript);
      AppliedIsNotLost(active, 0, pre, readScript, writeScript);
    }
  }

  lemma {:induction false} AppliedIsNotLost(active: seq<Artifact>, i: nat, pre: Files, readScript: seq<bool>, writeScript: seq<Fault>)
    ensures var a := ActiveStage(active, i, pre, readScript, writeScript); !(a.ok && a.lost)
    decreases |active| - i
  {
    if i < |active| {
      var step := ActiveStep(active[i], At(pre, active[i].path), readScript, writeScript);
      AppliedIsNotLost(active, i + 1, pre, step.readScript, step.writeScript);
    }
  }

  lemma {:induction false} OverridesAreNotLost(overrides: seq<Path>, i: nat, pre: Files, readScript: seq<bool>, writeScript: seq<Fault>)
    ensures !OverrideStage(overrides, i, pre, readScript, writeScript).lost
    decreases |overrides| - i
  {
    if i < |overrides| {
      var step := OverrideStep(readScript, writeScript);
      OverridesAreNotLost(overrides, i + 1, pre, readScript, writeScript);
      OverridesAreNotLost(overrides, i + 1, pre, step.readScript, step.writeScript);
    }
  }

  lemma {:induction false} AfterTheFirst(readScript: seq<bool>, writeScript: seq<Fault>, before: nat, r: nat, w: nat)
    requires FirstReads(readScript, before) && FirstFault(writeScript).Works?
    ensures Served(readScript, writeScript, before + r, 1 + w) <==> Served(Skip(readScript, before), RestOf(writeScript), r, w)
    ensures Skip(writeScript, 1) == RestOf(writeScript)
  {
    ServedNext(readScript, writeScript);
    ServedMore(readScript, writeScript, before, 1, r, w);
  }

  /** The stages of an installation that gets as far as its first write. */
  lemma {:induction false} InstallTakes(installed: seq<Artifact>, active: seq<Artifact>, overrides: seq<Path>, files: Files,
                                        readScript: seq<bool>, writeScript: seq<Fault>, stage: Stage)
    requires Proceeds(installed, active, overrides, files, readScript, writeScript)
    requires stage == TransactStage(active, overrides, files, Skip(readScript, ReadsBefore(installed, active, overrides)), RestOf(writeScript))
    ensures stage.ok <==> AllAccepted(active, files) && AllServed(installed, active, overrides, files, readScript, writeScript)
    ensures !stage.ok && FaultsIn(readScript, writeScript) <= (if AllAccepted(active, files) then 1 else 0) ==>
              Quiet(stage.readScript, stage.writeScript)
  {
    var before := ReadsBefore(installed, active, overrides);
    var r, w := TransactReads(active, overrides, files), TransactWrites(active, overrides, files);
    var readsLeft, writesLeft := Skip(readScript, before), RestOf(writeScript);
    FewerLater(readScript, writeScript, before, 1);
    QuietMeans(stage.readScript, stage.writeScript);
    AfterTheFirst(readScript, writeScript, before, r, w);
    if stage.ok {
      OnlyIfAccepted(active, overrides, files, readsLeft, writesLeft);
    }
    if AllAccepted(active, files) {
      TransactTakes(active, overrides, files, readsLeft, writesLeft, stage, r, w);
    } else {
      TransactLeaves(active, overrides, files, readsLeft, writesLeft, stage);
    }
  }

  /** What such an installation loses. */
  lemma {:induction false} InstallLoses(installed: seq<Artifact>, active: seq<Artifact>, overrides: seq<Path>, files: Files,
                                        readScript: seq<bool>, writeScript: seq<Fault>, stage: Stage)
    requires stage == TransactStage(active, overrides, files, Skip(readScript, ReadsBefore(installed, active, overrides)), RestOf(writeScript))
    ensures LossOf(installed, active, overrides, files, readScript, writeScript)
            == if stage.lost then Some((stage.readScript, stage.writeScript)) else None
    ensures stage.lost ==> !ReadsWork(readScript)
  {
    var left := Skip(readScript, ReadsBefore(installed, active, overrides));
    LostAmongActive(active, overrides, files, left, RestOf(writeScript), stage);
    if ReadsWork(readScript) {
      NoLoss(active, 0, files, left, RestOf(writeScript));
    }
  }

  lemma {:induction false} OnlyIfAccepted(active: seq<Artifact>, overrides: seq<Path>, pre: Files, readScript: seq<bool>, writeScript: seq<Fault>)
    requires TransactStage(active, overrides, pre, readScript, writeScript).ok
    ensures AllAccepted(active, pre)
  {
    var a := ActiveStage(active, 0, pre, readScript, writeScript);
    var o := OverrideStage(overrides, 0, pre, a.readScript, a.writeScript);
    ExpectedMean(active, overrides, pre);
    CheckStageIff(Expected(active, overrides, pre), 0, o.readScript);
  }

  /** A managed file holds its merged content, which is not what it held before. */
  ghost predicate LeftMerged(active: seq<Artifact>, p: Path, pre: Files, files: Files) {
    exists i :: 0 <= i < |active| && active[i].path == p && At(files, p) == active[i].merge(At(pre, p)) != At(pre, p)
  }

  /** After a recovery that reports success every file is as before, but for the lost one. */
  ghost predicate RecoveredTo(active: seq<Artifact>, lost: Option<Path>, pre: Files, files: Files) {
    && (files == pre <==> lost.None?)
    && (forall p :: Some(p) != lost ==> At(files, p) == At(pre, p))
    && (lost.Some? ==> LeftMerged(active, lost.value, pre, files))
  }

  /** A write is lost, and nothing fails afterwards. */
  predicate LosesQuietly(loss: Option<(seq<bool>, seq<Fault>)>) {
    loss.Some? && Quiet(loss.value.0, loss.value.1)
  }

  /** The plan: what the managed files hold, and which overrides are missing. */
  ghost predicate Planned(active: seq<Artifact>, overrides: seq<Path>, planned: seq<Option<Content>>, missing: set<Path>, files: Files) {
    && |planned| == |active| && (forall i :: 0 <= i < |active| ==> planned[i] == At(files, active[i].path))
    && (forall p :: p in missing ==> At(files, p) == None && p in overrides)
    && (forall i :: 0 <= i < |overrides| && At(files, overrides[i]) == None ==> overrides[i] in missing)
  }

  /** Some managed file differs from what it is to become, or some override is missing. */
  ghost predicate HasWork(active: seq<Artifact>, overrides: seq<Path>, files: Files) {
    !Merged(active, |active|, files, files) || exists i :: 0 <= i < |overrides| && At(files, overrides[i]) == None
  }

  lemma {:induction false} SomethingToDo(active: seq<Artifact>, overrides: seq<Path>, missing: set<Path>, files: Files)
    requires forall p :: p in missing ==> At(files, p) == None && p in overrides
    requires forall i :: 0 <= i < |overrides| && At(files, overrides[i]) == None ==> overrides[i] in missing
    ensures HasWork(active, overrides, files) <==> missing != {} || !Merged(active, |active|, files, files)
  {
    if missing != {} {
      var p :| p in missing;
      var i :| 0 <= i < |overrides| && overrides[i] == p;
    }
  }

  lemma {:induction false} BackedUp(backups: seq<Backup>, active: seq<Artifact>, planned: seq<Option<Content>>, files: Files)
    requires DistinctActive(active) && |planned| == |active| && forall i :: 0 <= i < |active| ==> planned[i] == At(files, active[i].path)
    requires |backups| == |active| && forall i :: 0 <= i < |active| ==> backups[i] == Backup(active[i], planned[i])
    requires forall i :: 0 <= i < |active| ==> ArtifactOk(active[i])
    ensures BackupsOf(backups, active, files)
  {
  }

  /** The backups of the chosen files can be restored. */
  predicate Restorable(backups: seq<Backup>, chosen: set<Path>, keep: bool, files: Files) {
    forall i :: 0 <= i < |backups| && backups[i].artifact.path in chosen ==>
      Restored(backups[i], At(files, backups[i].artifact.path), keep).Some?
  }

  predicate DistinctActive(active: seq<Artifact>) {
    forall i, j :: 0 <= i < j < |active| ==> active[i].path != active[j].path
  }

  /** The first `n` managed files hold what merging makes of them. */
  ghost predicate Merged(active: seq<Artifact>, n: nat, pre: Files, files: Files)
    requires n <= |active|
  {
    forall i :: 0 <= i < n ==> At(files, active[i].path) == active[i].merge(At(pre, active[i].path))
  }

  /** The first `n` managed files pass the check of their managed part. */
  ghost predicate Intact(active: seq<Artifact>, n: nat, files: Files)
    requires n <= |active|
  {
    forall i :: 0 <= i < n ==> At(files, active[i].path).Some? && active[i].accepts(At(files, active[i].path).value)
  }

  /** The managed files from `n` on have not been written. */
  ghost predicate Untouched(active: seq<Artifact>, n: nat, pre: Files, files: Files, post: map<Path, Content>)
    requires n <= |active|
  {
    forall i :: n <= i < |active| ==> At(files, active[i].path) == At(pre, active[i].path) && active[i].path !in post
  }

  lemma {:induction false} StillMerged(active: seq<Artifact>, overrides: seq<Path>, statePath: Path, pre: Files, before: Files, files: Files)
    requires OverridesOk(overrides, active, statePath) && Merged(active, |active|, pre, before)
    requires forall p :: p !in overrides ==> At(files, p) == At(before, p)
    ensures Merged(active, |active|, pre, files)
  {
    ActivePathsOf(active);
  }

  lemma {:induction false} AllThere(overrides: seq<Path>, missing: set<Path>, files: Files)
    requires forall p :: p in missing ==> p in overrides
    requires forall i :: 0 <= i < |overrides| && overrides[i] in missing ==> At(files, overrides[i]) == Some(STUB)
    ensures forall p :: p in missing ==> At(files, p) == Some(STUB)
  {
    forall p | p in missing
      ensures At(files, p) == Some(STUB)
    {
      var i :| 0 <= i < |overrides| && overrides[i] == p;
    }
  }

  /** Overrides that were not missing are as they were. */
  lemma {:induction false} OverridesKept(t: Log, active: seq<Artifact>, overrides: seq<Path>, statePath: Path, newState: Content,
                                         pre: Files, files: Files)
    requires OverridesOk(overrides, active, statePath) && Written(t, active, statePath, newState, pre, files, None)
    ensures forall p :: p in overrides && At(pre, p).Some? ==> At(files, p) == At(pre, p)
  {
  }

  lemma {:induction false} ExpectedVerdicts(t: Log, active: seq<Artifact>, overrides: seq<Path>, missing: set<Path>, statePath: Path,
                                            newState: Content, pre: Files, files: Files)
    requires OverridesOk(overrides, active, statePath) && Written(t, active, statePath, newState, pre, files, None)
    requires Merged(active, |active|, pre, files)
    requires forall i :: 0 <= i < |overrides| && At(pre, overrides[i]) == None ==> overrides[i] in missing
    requires forall i :: 0 <= i < |overrides| && overrides[i] in missing ==> At(files, overrides[i]) == Some(STUB)
    ensures Verdicts(active, overrides, files) == Expected(active, overrides, pre)
  {
    OverridesKept(t, active, overrides, statePath, newState, pre, files);
    forall i | |active| <= i < |active| + |overrides|
      ensures Verdicts(active, overrides, files)[i]
    {
      assert overrides[i - |active|] in overrides;
    }
  }

  /** A completed installation: every managed file is merged, every missing override is created, the
      state file is new, and nothing else has changed. */
  ghost predicate Installed(active: seq<Artifact>, overrides: seq<Path>, statePath: Path, newState: Content, pre: Files, files: Files) {
    && Merged(active, |active|, pre, files)
    && At(files, statePath) == Some(newState)
    && Intact(active, |active|, files)
    && (forall i :: 0 <= i < |overrides| ==>
          At(files, overrides[i]) == if At(pre, overrides[i]) == None then Some(STUB) else At(pre, overrides[i]))
    && (forall p :: p !in ActivePaths(active) && p !in overrides && p != statePath ==> At(files, p) == At(pre, p))
  }

  lemma {:induction false} AllInstalled(t: Log, active: seq<Artifact>, overrides: seq<Path>, missing: set<Path>, statePath: Path,
                                        newState: Content, pre: Files, files: Files)
    requires OverridesOk(overrides, active, statePath) && Merged(active, |active|, pre, files) && Intact(active, |active|, files)
    requires Written(t.(stateAttempted := false), active, statePath, newState, pre, files, None)
    requires forall p :: p in t.created ==> p in overrides
    requires forall i :: 0 <= i < |overrides| && At(pre, overrides[i]) == None ==> overrides[i] in missing
    requires forall i :: 0 <= i < |overrides| && overrides[i] in missing ==> At(files, overrides[i]) == Some(STUB)
    ensures Installed(active, overrides, statePath, newState, pre, files[statePath := newState])
  {
    forall i | 0 <= i < |active|
      ensures active[i].path != statePath
    {
      assert active[i].path in ActivePaths(active);
    }
    assert forall i :: 0 <= i < |overrides| ==> overrides[i] in overrides;
  }

  lemma {:induction false} OneMerged(active: seq<Artifact>, i: nat, pre: Files, before: Files, files: Files,
                                     post: map<Path, Content>, next: map<Path, Content>)
    requires DistinctActive(active) && i < |active|
    requires Merged(active, i, pre, before) && Untouched(active, i, pre, before, post)
    requires forall q :: q != active[i].path ==> At(files, q) == At(before, q)
    requires forall p :: p in next ==> p in post || p == active[i].path
    requires At(files, active[i].path) == active[i].merge(At(pre, active[i].path))
    ensures Merged(active, i + 1, pre, files) && Untouched(active, i + 1, pre, files, next)
  {
  }

  predicate OverridesOk(overrides: seq<Path>, active: seq<Artifact>, statePath: Path) {
    && (forall i, j :: 0 <= i < j < |overrides| ==> overrides[i] != overrides[j])
    && (forall p :: p in overrides ==> p !in ActivePaths(active) && p != statePath)
    && statePath !in ActivePaths(active)
  }

  /** What the transaction remembers while it runs. */
  datatype Log = Log(
    writes: nat,
    post: map<Path, Content>,
    created: seq<Path>,
    stateAttempted: bool,
    priorState: Option<Content>)

  function ActivePaths(active: seq<Artifact>): set<Path> {
    set i | 0 <= i < |active| :: active[i].path
  }

  ghost predicate BackupsOf(backups: seq<Backup>, active: seq<Artifact>, pre: Files) {
    && |backups| == |active|
    && (forall i :: 0 <= i < |active| ==> backups[i].artifact == active[i] && BackupOk(backups[i], pre))
    && DistinctActive(active)
  }

  /** The first `n` backups are restored, as far as they are chosen. */
  ghost predicate AllRestored(backups: seq<Backup>, n: nat, chosen: set<Path>, keep: bool, before: Files, files: Files)
    requires n <= |backups|
  {
    forall i :: 0 <= i < n && backups[i].artifact.path in chosen ==>
      Restored(backups[i], At(before, backups[i].artifact.path), keep) == Some(At(files, backups[i].artifact.path))
  }

  /** Restoring files that still hold what was merged gives their earlier contents. */
  lemma {:induction false} RestoredIsPrior(backups: seq<Backup>, chosen: set<Path>, pre: Files, before: Files, files: Files)
    requires forall i :: 0 <= i < |backups| ==> BackupOk(backups[i], pre)
    requires forall i :: 0 <= i < |backups| && backups[i].artifact.path in chosen ==>
               At(before, backups[i].artifact.path) == backups[i].artifact.merge(backups[i].prior)
    requires AllRestored(backups, |backups|, chosen, false, before, files)
    ensures forall i :: 0 <= i < |backups| && backups[i].artifact.path in chosen ==>
              At(files, backups[i].artifact.path) == At(pre, backups[i].artifact.path)
  {
    forall i | 0 <= i < |backups| && backups[i].artifact.path in chosen
      ensures At(files, backups[i].artifact.path) == At(pre, backups[i].artifact.path)
    {
      assert BackupOk(backups[i], pre);
    }
  }

  lemma {:induction false} BackupPaths(backups: seq<Backup>, active: seq<Artifact>)
    requires |backups| == |active| && forall i :: 0 <= i < |active| ==> backups[i].artifact == active[i]
    ensures Paths(backups) == ActivePaths(active)
  {
    assert forall i :: 0 <= i < |active| ==> backups[i].artifact.path == active[i].path;
  }

  /** What was recorded for a managed file is what merging makes of it. */
  ghost predicate PostIsMerged(post: map<Path, Content>, active: seq<Artifact>, pre: Files) {
    forall i :: 0 <= i < |active| && active[i].path in post ==> Some(post[active[i].path]) == active[i].merge(At(pre, active[i].path))
  }

  lemma {:induction false} PostGrows(post: map<Path, Content>, active: seq<Artifact>, i: nat, pre: Files, c: Content)
    requires PostIsMerged(post, active, pre) && DistinctActive(active) && i < |active|
    requires Some(c) == active[i].merge(At(pre, active[i].path))
    ensures PostIsMerged(post[active[i].path := c], active, pre)
  {
    forall j | 0 <= j < |active| && active[j].path in post[active[i].path := c]
      ensures Some(post[active[i].path := c][active[j].path]) == active[j].merge(At(pre, active[j].path))
    {
      OnlyIndex(active, i, j);
    }
  }

  /** The files as the transaction has left them so far. */
  ghost predicate Written(t: Log, active: seq<Artifact>, statePath: Path, newState: Content, pre: Files, files: Files, lost: Option<Path>) {
    && statePath !in ActivePaths(active) && statePath !in t.created && statePath !in t.post
    && (forall p :: p in t.created ==> p !in ActivePaths(active) && At(pre, p) == None && At(files, p) == Some(STUB))
    && (forall p :: p in t.post ==> At(files, p) == Some(t.post[p]) && (p in ActivePaths(active) || p in t.created))
    && PostIsMerged(t.post, active, pre)
    && (lost.Some? ==> lost.value in ActivePaths(active) && lost.value !in t.post)
    && (forall p :: p !in t.post && p !in t.created && Some(p) != lost && p != statePath ==> At(files, p) == At(pre, p))
    && (At(files, statePath) == At(pre, statePath) || (t.stateAttempted && At(files, statePath) == Some(newState)))
    && (t.writes == 0 ==> t.post == map[] && t.created == [] && lost.None? && At(files, statePath) == At(pre, statePath))
  }

  lemma {:induction false} ActiveWritten(t: Log, active: seq<Artifact>, i: nat, statePath: Path, newState: Content,
                                         pre: Files, files: Files, c: Content)
    requires Written(t, active, statePath, newState, pre, files, None) && i < |active| && active[i].path !in t.post
    requires DistinctActive(active)
    requires Some(c) == active[i].merge(At(pre, active[i].path)) && t.created == []
    ensures Written(t.(writes := t.writes + 1, post := t.post[active[i].path := c]), active, statePath, newState, pre,
                    files[active[i].path := c], None)
  {
    PostGrows(t.post, active, i, pre, c);
    assert active[i].path in ActivePaths(active);
  }

  lemma {:induction false} ActiveLost(t: Log, active: seq<Artifact>, i: nat, statePath: Path, newState: Content,
                                      pre: Files, files: Files, c: Content)
    requires Written(t, active, statePath, newState, pre, files, None) && i < |active| && active[i].path !in t.post
    requires t.created == []
    ensures Written(t.(writes := t.writes + 1), active, statePath, newState, pre, files[active[i].path := c], Some(active[i].path))
  {
    assert active[i].path in ActivePaths(active);
  }

  lemma {:induction false} OneWritten(t: Log, next: Log, active: seq<Artifact>, i: nat, statePath: Path, newState: Content,
                                      pre: Files, before: Files, files: Files, c: Content, committed: bool, recorded: bool,
                                      lost: Option<Path>)
    requires Written(t, active, statePath, newState, pre, before, None) && i < |active| && active[i].path !in t.post
    requires DistinctActive(active)
    requires Some(c) == active[i].merge(At(pre, active[i].path)) && t.created == []
    requires files == if committed then before[active[i].path := c] else before
    requires next == if committed then t.(writes := t.writes + 1, post := if recorded then t.post[active[i].path := c] else t.post) else t
    requires lost == if committed && !recorded then Some(active[i].path) else None
    ensures Written(next, active, statePath, newState, pre, files, lost)
    ensures next == t.(writes := next.writes, post := next.post) && forall p :: p in next.post ==> p in t.post || p == active[i].path
    ensures forall q :: q != active[i].path ==> At(files, q) == At(before, q)
  {
    if committed && recorded {
      ActiveWritten(t, active, i, statePath, newState, pre, before, c);
    } else if committed {
      ActiveLost(t, active, i, statePath, newState, pre, before, c);
    }
  }

  lemma {:induction false} OnlyIndex(active: seq<Artifact>, i: nat, j: nat)
    requires DistinctActive(active) && i < |active| && j < |active|
    ensures active[i].path == active[j].path <==> i == j
  {
  }

  lemma {:induction false} OverrideWritten(t: Log, active: seq<Artifact>, p: Path, statePath: Path, newState: Content,
                                           pre: Files, files: Files, recorded: bool)
    requires Written(t, active, statePath, newState, pre, files, None)
    requires p !in ActivePaths(active) && p != statePath && At(pre, p) == None && p !in t.created
    ensures Written(t.(writes := t.writes + 1, post := if recorded then t.post[p := STUB] else t.post, created := t.created + [p]),
                    active, statePath, newState, pre, files[p := STUB], None)
  {
    var post, created := if recorded then t.post[p := STUB] else t.post, t.created + [p];
    assert forall q :: q in created <==> q in t.created || q == p;
    assert PostIsMerged(post, active, pre) by {
      ActivePathsOf(active);
    }
    assert forall q :: At(files[p := STUB], q) == if q == p then Some(STUB) else At(files, q);
    assert forall q :: q in post ==> q == p || (q in t.post && post[q] == t.post[q]);
  }

  lemma {:induction false} ActivePathsOf(active: seq<Artifact>)
    ensures forall i :: 0 <= i < |active| ==> active[i].path in ActivePaths(active)
  {
  }

  /** The first `n` overrides that were missing are there, and nothing else has been created. */
  ghost predicate OverridesTo(overrides: seq<Path>, n: nat, missing: set<Path>, created: seq<Path>, pre: Files, files: Files)
    requires n <= |overrides|
  {
    && (forall p :: p !in overrides ==> At(files, p) == At(pre, p))
    && (forall p :: p in created ==> p in overrides[..n])
    && (forall i :: 0 <= i < n && overrides[i] in missing ==> At(files, overrides[i]) == Some(STUB))
  }

  lemma {:induction false} NextOverride(overrides: seq<Path>, i: nat, missing: set<Path>, created: seq<Path>, pre: Files, files: Files)
    requires forall j, k :: 0 <= j < k < |overrides| ==> overrides[j] != overrides[k]
    requires i < |overrides| && OverridesTo(overrides, i, missing, created, pre, files)
    ensures overrides[i] in overrides && overrides[i] !in created
    ensures overrides[i] !in missing ==> OverridesTo(overrides, i + 1, missing, created, pre, files)
  {
    assert overrides[..i + 1] == overrides[..i] + [overrides[i]];
    assert overrides[i] !in overrides[..i];
  }

  lemma {:induction false} OneMoreOverride(overrides: seq<Path>, i: nat, missing: set<Path>, created: seq<Path>, next: seq<Path>,
                                           pre: Files, before: Files, files: Files)
    requires forall j, k :: 0 <= j < k < |overrides| ==> overrides[j] != overrides[k]
    requires i < |overrides| && OverridesTo(overrides, i, missing, created, pre, before)
    requires forall q :: q in next ==> q in created || q == overrides[i]
    requires forall q :: q != overrides[i] ==> At(files, q) == At(before, q)
    ensures forall p :: p !in overrides ==> At(files, p) == At(pre, p)
    ensures forall p :: p in next ==> p in overrides
    ensures At(files, overrides[i]) == Some(STUB) ==> OverridesTo(overrides, i + 1, missing, next, pre, files)
  {
    assert overrides[..i + 1] == overrides[..i] + [overrides[i]];
    forall p | p in next
      ensures p in overrides[..i + 1] && p in overrides
    {
    }
  }

  /** What creating an override, or not getting that far, leaves. */
  lemma {:induction false} OverrideDone(t: Log, next: Log, active: seq<Artifact>, p: Path, statePath: Path, newState: Content,
                                        pre: Files, before: Files, files: Files, committed: bool, recorded: bool)
    requires Written(t, active, statePath, newState, pre, before, None)
    requires p !in ActivePaths(active) && p != statePath && At(pre, p) == None && p !in t.created
    requires files == if committed then before[p := STUB] else before
    requires next == if committed then t.(writes := t.writes + 1, post := if recorded then t.post[p := STUB] else t.post, created := t.created + [p])
                     else t
    ensures Written(next, active, statePath, newState, pre, files, None)
    ensures next == t.(writes := next.writes, post := next.post, created := next.created)
    ensures forall q :: q in next.created ==> q in t.created || q == p
    ensures forall q :: q != p ==> At(files, q) == At(before, q)
  {
    if committed {
      OverrideWritten(t, active, p, statePath, newState, pre, before, recorded);
    }
  }

  /** The state file is the last one to be written: there was something to change, so something has
      been written before it. */
  lemma {:induction false} StateWritten(t: Log, active: seq<Artifact>, overrides: seq<Path>, missing: set<Path>, statePath: Path,
                                        newState: Content, pre: Files, before: Files, files: Files)
    requires Written(t.(stateAttempted := false), active, statePath, newState, pre, before, None) && t.stateAttempted
    requires missing != {} || !Merged(active, |active|, pre, pre)
    requires Merged(active, |active|, pre, before)
    requires forall p :: p in missing ==> At(pre, p) == None && At(before, p) == Some(STUB)
    requires files == before || files == before[statePath := newState]
    ensures Written(t, active, statePath, newState, pre, files, None)
  {
    if t.writes == 0 {
      SameFiles(before, pre);
      assert false;
    }
  }

  lemma {:induction false} MergedNext(active: seq<Artifact>, i: nat, pre: Files, files: Files)
    requires i < |active|
    ensures Merged(active, i + 1, pre, files) <==>
              Merged(active, i, pre, files) && At(files, active[i].path) == active[i].merge(At(pre, active[i].path))
  {
  }

  lemma {:induction false} ManagedAreNotCreated(t: Log, active: seq<Artifact>, backups: seq<Backup>, statePath: Path, newState: Content,
                                                pre: Files, files: Files, lost: Option<Path>)
    requires BackupsOf(backups, active, pre) && Written(t, active, statePath, newState, pre, files, lost)
    ensures forall i :: 0 <= i < |backups| ==> backups[i].artifact.path !in t.created
    ensures forall i :: 0 <= i < |backups| && backups[i].artifact.path in t.post ==>
              At(files, backups[i].artifact.path) == backups[i].artifact.merge(backups[i].prior)
  {
    forall i | 0 <= i < |backups|
      ensures backups[i].artifact.path !in t.created
    {
      assert active[i].path in ActivePaths(active);
    }
  }

  /** With the created overrides removed, the managed files are as they were written. */
  lemma {:induction false} OverridesUndone(t: Log, active: seq<Artifact>, backups: seq<Backup>, statePath: Path, newState: Content,
                                           pre: Files, before: Files, mid: Files, lost: Option<Path>)
    requires BackupsOf(backups, active, pre) && Written(t, active, statePath, newState, pre, before, lost)
    requires forall q :: q !in t.created ==> At(mid, q) == At(before, q)
    ensures forall i :: 0 <= i < |backups| && backups[i].artifact.path in t.post ==>
              At(mid, backups[i].artifact.path) == backups[i].artifact.merge(backups[i].prior)
    ensures DistinctBackups(backups) && Restorable(backups, t.post.Keys, false, mid)
  {
    ManagedAreNotCreated(t, active, backups, statePath, newState, pre, before, lost);
    forall i | 0 <= i < |backups| && backups[i].artifact.path in t.post
      ensures Restored(backups[i], At(mid, backups[i].artifact.path), false).Some?
    {
      assert BackupOk(backups[i], pre);
    }
  }

  /** With the managed files restored, too, only the state file is left to be set back. */
  lemma {:induction false} AllUndone(t: Log, active: seq<Artifact>, backups: seq<Backup>, statePath: Path, newState: Content,
                                     pre: Files, before: Files, mid: Files, files: Files, lost: Option<Path>)
    requires BackupsOf(backups, active, pre) && Written(t, active, statePath, newState, pre, before, lost)
    requires Paths(backups) == ActivePaths(active)
    requires forall q :: q !in t.created ==> At(mid, q) == At(before, q)
    requires forall p :: p in t.created ==> At(mid, p) == None
    requires forall q :: q !in t.post.Keys || q !in Paths(backups) ==> At(files, q) == At(mid, q)
    requires AllRestored(backups, |backups|, t.post.Keys, false, mid, files)
    ensures forall p :: Some(p) != lost && p != statePath ==> At(files, p) == At(pre, p)
    ensures At(files, statePath) == At(before, statePath) && (lost.Some? ==> At(files, lost.value) == At(before, lost.value))
    ensures lost != Some(statePath)
  {
    OverridesUndone(t, active, backups, statePath, newState, pre, before, mid, lost);
    RestoredIsPrior(backups, t.post.Keys, pre, mid, files);
    forall p | p in t.post && p in Paths(backups)
      ensures At(files, p) == At(pre, p)
    {
      var i :| 0 <= i < |backups| && backups[i].artifact.path == p;
    }
  }

  function Paths(backups: seq<Backup>): set<Path> {
    set i | 0 <= i < |backups| :: backups[i].artifact.path
  }

  predicate DistinctBackups(backups: seq<Backup>) {
    forall i, j :: 0 <= i < j < |backups| ==> backups[i].artifact.path != backups[j].artifact.path
  }

  ghost predicate BackupOk(b: Backup, pre: Files) {
    ArtifactOk(b.artifact) && b.prior == At(pre, b.artifact.path)
  }
}
