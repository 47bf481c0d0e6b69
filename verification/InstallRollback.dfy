/** Going back to the previous installation, and what that means for the managed files. */
module InstallRollback {
  import opened Faults
  import opened Options
  import opened InstallTransaction
  import B = ManagedBlock
  import L = ManagedBlockLaws

  /** `NotStarted` failed before the first write, `PutBack` failed and returned to the contents it
      started from, `Stuck` could not even do that. */
  datatype Outcome = RolledBack | NotStarted | PutBack | Stuck

  /** Checks that the installed files are as they were installed, and copies them aside. */
  method SaveInstalled(root: Root, installed: seq<Artifact>) returns (ok: bool, saved: seq<Backup>)
    modifies root`readFaults, root`writeFaults
    ensures ok ==> Saved(installed, saved, root.files)
    ensures ok <==> FirstReads(old(root.readFaults), |installed|) && Intact(installed, |installed|, root.files)
                    && FirstFault(old(root.writeFaults)).Works?
    ensures ok ==> root.readFaults == Skip(old(root.readFaults), |installed|) && root.writeFaults == RestOf(old(root.writeFaults))
  {
    saved := [];
    ghost var script := root.readFaults;
    SkipNext(script, 0);
    for i := 0 to |installed|
      invariant |saved| == i && root.writeFaults == old(root.writeFaults)
      invariant Intact(installed, i, root.files) && FirstReads(script, i) && root.readFaults == Skip(script, i)
      invariant forall j :: 0 <= j < i ==> saved[j].artifact == installed[j] && saved[j].prior.Some?
                                           && saved[j].prior == At(root.files, installed[j].path)
    {
      SkipNext(script, i);
      NextRead(script, i);
      var read, c := root.Read(installed[i].path);
      if !read || c.None? || !installed[i].accepts(c.value) {
        return false, saved;
      }
      saved := saved + [Backup(installed[i], c)];
    }
    ok := root.StoreCopies();
  }

  ghost predicate Saved(installed: seq<Artifact>, saved: seq<Backup>, files: Files) {
    && |saved| == |installed|
    && forall i :: 0 <= i < |installed| ==> saved[i].artifact == installed[i] && saved[i].prior.Some?
                                            && saved[i].prior == At(files, installed[i].path)
  }

  /** The rollback gets as far as its first write: there is a state file, it and the manifest are about
      the same files, these are as they were installed, and copies of them are stored. */
  ghost predicate Starts(installed: seq<Artifact>, manifest: seq<Backup>, statePath: Path, files: Files, readScript: seq<bool>,
                         writeScript: seq<Fault>) {
    && FirstReads(readScript, 1 + |installed|) && At(files, statePath).Some?
    && DistinctActive(installed) && DistinctBackups(manifest) && Paths(manifest) == ActivePaths(installed)
    && Intact(installed, |installed|, files) && FirstFault(writeScript).Works?
  }

  /** Everything that a rollback reads and writes works. */
  predicate RollbackServed(installed: seq<Artifact>, manifest: seq<Backup>, files: Files, readScript: seq<bool>, writeScript: seq<Fault>) {
    Served(readScript, writeScript, 1 + |installed| + RestoreReads(manifest, 0, Paths(manifest)),
           1 + (RestoreWrites(manifest, 0, Paths(manifest), files) + 1))
  }

  /** Restores the backups of the transaction before, with the user's parts as they are now, and the
      state file. When that fails, the files that were there at the start are written back. It rolls
      back exactly when every backup can be restored and every read and write works; a single fault
      never leaves it half done. */
  method Rollback(root: Root, installed: seq<Artifact>, manifest: seq<Backup>, statePath: Path, prior: Option<Content>)
    returns (out: Outcome)
    requires statePath !in ActivePaths(installed)
    modifies root
    ensures out.RolledBack? ==> RolledBackTo(manifest, statePath, prior, old(root.files), root.files)
    ensures out.NotStarted? || out.PutBack? ==> root.files == old(root.files)
    ensures out.NotStarted? <==> !Starts(installed, manifest, statePath, old(root.files), old(root.readFaults), old(root.writeFaults))
    ensures out.RolledBack? <==>
              && Starts(installed, manifest, statePath, old(root.files), old(root.readFaults), old(root.writeFaults))
              && Restorable(manifest, Paths(manifest), true, old(root.files))
              && RollbackServed(installed, manifest, old(root.files), old(root.readFaults), old(root.writeFaults))
    ensures (FaultsIn(old(root.readFaults), old(root.writeFaults))
             <= if Restorable(manifest, Paths(manifest), true, old(root.files)) then 1 else 0) ==> !out.Stuck?
  {
    ghost var pre := root.files;
    TwoReads(root.readFaults, 1, |installed|);
    ServedNext(root.readFaults, root.writeFaults);
    var stateRead, state := root.Read(statePath);
    if !stateRead || state.None? {
      return NotStarted;
    }
    if !DistinctActive(installed) || !DistinctBackups(manifest) || Paths(manifest) != ActivePaths(installed) {
      return NotStarted;
    }
    var ok, saved := SaveInstalled(root, installed);
    if !ok {
      return NotStarted;
    }
    BackupPaths(saved, installed);
    RollbackTakes(installed, manifest, statePath, pre, old(root.readFaults), old(root.writeFaults));
    ok := Forward(root, manifest, statePath, prior);
    if ok {
      return RolledBack;
    }
    ghost var mid := root.files;
    if Quiet(root.readFaults, root.writeFaults) {
      SavedRestorable(saved, mid);
      QuietlyRestored(saved, Paths(saved), false, mid, root.readFaults, root.writeFaults);
    }
    ok := root.RestoreFiles(saved, Paths(saved), false);
    ghost var between := root.files;
    if ok {
      ok := root.RestoreState(statePath, state);
    }
    if !ok {
      return Stuck;
    }
    PutBackFiles(installed, saved, statePath, pre, mid, between, root.files);
    out := PutBack;
  }

  /** The backups and then the state file. */
  method Forward(root: Root, manifest: seq<Backup>, statePath: Path, prior: Option<Content>) returns (ok: bool)
    requires DistinctBackups(manifest) && statePath !in Paths(manifest) && statePath in root.files
    modifies root
    ensures ok ==> RolledBackTo(manifest, statePath, prior, old(root.files), root.files)
    ensures forall p :: p !in Paths(manifest) && p != statePath ==> At(root.files, p) == At(old(root.files), p)
    ensures ForwardStage(manifest, old(root.files), old(root.readFaults), old(root.writeFaults))
            == Stage(ok, false, root.readFaults, root.writeFaults)
  {
    ok := root.RestoreFiles(manifest, Paths(manifest), true);
    if ok {
      assert At(root.files, statePath) == At(old(root.files), statePath);
      ok := root.RestoreState(statePath, prior);
    }
  }

  function ForwardStage(manifest: seq<Backup>, pre: Files, readScript: seq<bool>, writeScript: seq<Fault>): Stage {
    var stage := RestoreStage(manifest, 0, Paths(manifest), true, pre, readScript, writeScript);
    if stage.ok then stage.(ok := FirstFault(stage.writeScript).Works?, writeScript := RestOf(stage.writeScript)) else stage
  }

  lemma {:induction false} SavedRestorable(saved: seq<Backup>, files: Files)
    requires forall i :: 0 <= i < |saved| ==> saved[i].prior.Some?
    ensures Restorable(saved, Paths(saved), false, files)
  {
  }

  /** The stages of a rollback that starts. */
  lemma {:induction false} RollbackTakes(installed: seq<Artifact>, manifest: seq<Backup>, statePath: Path, pre: Files,
                                         readScript: seq<bool>, writeScript: seq<Fault>)
    requires Starts(installed, manifest, statePath, pre, readScript, writeScript)
    ensures var stage := ForwardStage(manifest, pre, Skip(readScript, 1 + |installed|), RestOf(writeScript));
            && (stage.ok <==> Restorable(manifest, Paths(manifest), true, pre)
                              && RollbackServed(installed, manifest, pre, readScript, writeScript))
            && (!stage.ok && FaultsIn(readScript, writeScript) <= (if Restorable(manifest, Paths(manifest), true, pre) then 1 else 0) ==>
                  Quiet(stage.readScript, stage.writeScript))
  {
    var readsLeft, writesLeft := Skip(readScript, 1 + |installed|), RestOf(writeScript);
    var stage := ForwardStage(manifest, pre, readsLeft, writesLeft);
    var r, w := RestoreReads(manifest, 0, Paths(manifest)), RestoreWrites(manifest, 0, Paths(manifest), pre);
    AfterTheFirst(readScript, writeScript, 1 + |installed|, r, w + 1);
    FewerLater(readScript, writeScript, 1 + |installed|, 1);
    QuietMeans(stage.readScript, stage.writeScript);
    if Restorable(manifest, Paths(manifest), true, pre) {
      ForwardTakes(manifest, pre, readsLeft, writesLeft, stage, r, w);
    } else {
      ForwardFails(manifest, pre, readsLeft, writesLeft, stage);
    }
  }

  lemma {:induction false} ForwardTakes(manifest: seq<Backup>, pre: Files, readScript: seq<bool>, writeScript: seq<Fault>,
                                        stage: Stage, r: nat, w: nat)
    requires Restorable(manifest, Paths(manifest), true, pre) && stage == ForwardStage(manifest, pre, readScript, writeScript)
    requires r == RestoreReads(manifest, 0, Paths(manifest)) && w == RestoreWrites(manifest, 0, Paths(manifest), pre)
    ensures Took(stage, readScript, writeScript, r, w + 1)
  {
    var first := RestoreStage(manifest, 0, Paths(manifest), true, pre, readScript, writeScript);
    RestoreTakes(manifest, 0, Paths(manifest), true, pre, readScript, writeScript);
    TookOne(first.readScript, first.writeScript, false);
    TookMore(first, stage, readScript, writeScript, r, w, 0, 1, r, w + 1);
  }

  lemma {:induction false} ForwardFails(manifest: seq<Backup>, pre: Files, readScript: seq<bool>, writeScript: seq<Fault>, stage: Stage)
    requires !Restorable(manifest, Paths(manifest), true, pre) && stage == ForwardStage(manifest, pre, readScript, writeScript)
    ensures !stage.ok && FaultsIn(stage.readScript, stage.writeScript) <= FaultsIn(readScript, writeScript)
  {
    var j :| 0 <= j < |manifest| && manifest[j].artifact.path in Paths(manifest)
             && Restored(manifest[j], At(pre, manifest[j].artifact.path), true).None?;
    NotRestorable(manifest, 0, Paths(manifest), true, pre, readScript, writeScript, j);
    RestoreTakes(manifest, 0, Paths(manifest), true, pre, readScript, writeScript);
  }

  /** Every file of the manifest is restored with the user's part kept, the state file is the earlier
      one, and no other file has changed: created overrides stay. */
  ghost predicate RolledBackTo(manifest: seq<Backup>, statePath: Path, prior: Option<Content>, before: Files, files: Files) {
    && AllRestored(manifest, |manifest|, Paths(manifest), true, before, files)
    && At(files, statePath) == prior
    && forall p :: p !in Paths(manifest) && p != statePath ==> At(files, p) == At(before, p)
  }

  lemma {:induction false} PutBackFiles(installed: seq<Artifact>, saved: seq<Backup>, statePath: Path, pre: Files, mid: Files,
                                        between: Files, files: Files)
    requires Saved(installed, saved, pre) && Paths(saved) == ActivePaths(installed) && statePath !in Paths(saved)
    requires AllRestored(saved, |saved|, Paths(saved), false, mid, between)
    requires forall p :: p != statePath ==> At(files, p) == At(between, p)
    requires forall p :: p !in Paths(saved) ==> At(files, p) == At(pre, p)
    ensures files == pre
  {
    forall p
      ensures At(files, p) == At(pre, p)
    {
      if p in Paths(saved) {
        var i :| 0 <= i < |saved| && saved[i].artifact.path == p;
      }
    }
    SameFiles(files, pre);
  }

  // ---------------------------------------------------------------- the managed files

  function Text(c: Option<Content>): Content {
    if c.None? then [] else c.value
  }

  function Done(r: B.Result): Option<Content> {
    if r.Ok? then Some(r.bytes) else None
  }

  /** A file that belongs to the installer as a whole. It must not exist before it is `owned`. */
  function WholeFile(path: Path, content: Content, owned: bool): Artifact {
    Artifact(path,
             (c: Option<Content>) => if !owned && c.Some? then None else Some(content),
             (c: Content) => Some(None),
             (prior: Content, c: Content) => Some(prior),
             (c: Content) => c == content)
  }

  /** A file with a managed block. Before it is `owned` it must not have a marker line. */
  ghost function BlockFile(path: Path, body: Content, owned: bool): Artifact {
    Artifact(path,
             (c: Option<Content>) => MergeBlock(body, owned, Text(c)),
             (c: Content) => RemoveBlock(c),
             (prior: Content, c: Content) => ReinstateBlock(prior, c),
             (c: Content) => HasBlock(body, c))
  }

  function MergeBlock(body: Content, owned: bool, c: Content): Option<Content> {
    if !owned && (B.Markers(c, B.CODEX.begin, 0) != [] || B.Markers(c, B.CODEX.end, 0) != []) then None
    else Done(B.Merge(B.CODEX, c, L.Block(B.CODEX, body)))
  }

  function RemoveBlock(c: Content): Option<Option<Content>> {
    match B.Remove(B.CODEX, c)
    case Refused => None
    case Ok(rest) => Some(if rest == [] then None else Some(rest))
  }

  function ReinstateBlock(prior: Content, c: Content): Option<Content> {
    match B.Managed(B.CODEX, prior)
    case Ok(block) => Done(B.Merge(B.CODEX, c, block + [B.LF]))
    case Refused => Done(B.Remove(B.CODEX, c))
  }

  predicate HasBlock(body: Content, c: Content) {
    var managed := B.Managed(B.CODEX, c);
    managed.Ok? && B.ToLf(managed.bytes) == L.BlockText(B.CODEX, [B.LF], body)
  }

  ghost predicate RenderedBlock(body: Content) {
    L.Rendered(B.MarkerScan(), B.CODEX, body)
  }

  /** Rolling back what an installation has just merged gives the earlier file. */
  ghost predicate RoundTrip(a: Artifact, c: Option<Content>) {
    Restored(Backup(a, c), a.merge(c), true) == Some(c)
  }

  lemma {:induction false} WholeFileOk(path: Path, content: Content, owned: bool, c: Option<Content>)
    ensures ArtifactOk(WholeFile(path, content, owned))
    ensures WholeFile(path, content, owned).merge(c).Some? ==> RoundTrip(WholeFile(path, content, owned), c)
  {
  }

  lemma {:induction false} BlockFileOk(path: Path, body: Content, owned: bool)
    requires RenderedBlock(body)
    ensures ArtifactOk(BlockFile(path, body, owned))
  {
    if B.Merge(B.CODEX, [], L.Block(B.CODEX, body)).Ok? {
      L.InstalledBlockLaws(body, []);
    }
  }

  /** A merge that is accepted passes the final check. */
  lemma {:induction false} BlockFilePasses(body: Content, owned: bool, c: Content)
    requires RenderedBlock(body)
    ensures MergeBlock(body, owned, c).Some? ==> HasBlock(body, MergeBlock(body, owned, c).value)
  {
    if MergeBlock(body, owned, c).Some? {
      L.InstalledBlockLaws(body, c);
    }
  }

  /** A first installation can be rolled back without a trace exactly when the file was absent, or
      empty, or ended with a line feed; else one line feed stays. */
  lemma {:induction false} BlockFileRoundTrip(path: Path, body: Content, c: Option<Content>)
    requires RenderedBlock(body) && MergeBlock(body, false, Text(c)).Some?
    ensures Restored(Backup(BlockFile(path, body, false), c), BlockFile(path, body, false).merge(c), true)
            == Some(if B.WholeLines(Text(c)) then c else Some(Text(c) + [B.LF]))
  {
    L.InstalledBlockLaws(body, Text(c));
  }

  /** Rolling an update back, whatever the user has written around the block before the backup and
      since: the earlier block is there again exactly unless the file now has CR LF line endings and
      the block in the backup has a carriage return. Where a block is found, the user's text is as it
      was. */
  lemma {:induction false} BlockFileRolledBack(body: Content, prior: Content, now: Content)
    requires B.CR !in body && HasBlock(body, prior) && B.Managed(B.CODEX, now).Ok?
    ensures var r := ReinstateBlock(prior, now);
            && r.Some?
            && (HasBlock(body, r.value) <==> !(B.AllCrlf(now) && B.CR in B.Managed(B.CODEX, prior).bytes))
            && (B.Managed(B.CODEX, r.value).Ok? ==> RemoveBlock(r.value) == RemoveBlock(now))
  {
    L.InstalledRollback(body, prior, now);
  }

  /** A file that was one empty line with CR LF, and a backup taken of it after the installation:
      rolling back to that backup hides the block. */
  lemma {:induction false} CrlfBlockIsLost()
    ensures var file := MergeBlock([], false, [B.CR, B.LF]);
            && file.Some? && HasBlock([], file.value)
            && var r := ReinstateBlock(file.value, file.value);
               r.Some? && !HasBlock([], r.value)
  {
    var c: Content := [B.CR, B.LF];
    B.CodexMarksOk();
    B.NoMarkerInNothing(B.CODEX.begin, 0);
    B.NoMarkerInNothing(B.CODEX.end, 0);
    B.OneLine([], c, B.CODEX.begin, 0);
    B.OneLine([], c, B.CODEX.end, 0);
    assert [] + c == c;
    B.AllCrlfMeans(c);
    BlockFilePasses([], false, c);
    var file := MergeBlock([], false, c).value;
    L.InstalledWithCrlf([], c);
    BlockFileRolledBack([], file, file);
  }

  /** An installation and its rollback, with nothing in between: a managed file is as before exactly
      when its artifact makes the round trip, every other file is as before, and the overrides that
      were created stay. */
  lemma {:induction false} InstallThenRollback(active: seq<Artifact>, overrides: seq<Path>, manifest: seq<Backup>, statePath: Path,
                                               newState: Content, pre: Files, mid: Files, files: Files)
    requires OverridesOk(overrides, active, statePath) && |manifest| == |active|
    requires forall i :: 0 <= i < |active| ==> manifest[i] == Backup(active[i], At(pre, active[i].path))
    requires Installed(active, overrides, statePath, newState, pre, mid)
    requires RolledBackTo(manifest, statePath, At(pre, statePath), mid, files)
    ensures forall i :: 0 <= i < |active| ==>
              (At(files, active[i].path) == At(pre, active[i].path) <==> RoundTrip(active[i], At(pre, active[i].path)))
    ensures forall p :: p !in ActivePaths(active) ==>
              At(files, p) == if p in overrides && At(pre, p) == None then Some(STUB) else At(pre, p)
  {
    BackupPaths(manifest, active);
    forall i | 0 <= i < |active|
      ensures At(files, active[i].path) == At(pre, active[i].path) <==> RoundTrip(active[i], At(pre, active[i].path))
    {
      assert active[i].path in ActivePaths(active);
      assert manifest[i].artifact.path in Paths(manifest);
    }
    forall p | p !in ActivePaths(active)
      ensures At(files, p) == if p in overrides && At(pre, p) == None then Some(STUB) else At(pre, p)
    {
      if p in overrides {
        var i :| 0 <= i < |overrides| && overrides[i] == p;
      }
    }
  }
}
