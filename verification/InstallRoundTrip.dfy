/** A first installation and its rollback, for the kinds of files that the installer manages. */
module InstallRoundTrip {
  import opened Faults
  import opened Options
  import opened InstallTransaction
  import opened InstallRollback
  import B = ManagedBlock
  import L = ManagedBlockLaws
  import M = ManagedBlockMarks
  import H = ClaudeHooks

  /** A file of the installer's own, a file with a managed block, and a settings file with a hook. */
  datatype Kind =
    | Whole(content: Content)
    | Block(body: Content)
    | Hook(codec: H.Codec, hook: H.Entry, owned: H.Entry -> bool)

  ghost predicate KindOk(k: Kind) {
    match k
    case Whole(_) => true
    case Block(body) => RenderedBlock(body)
    case Hook(codec, hook, owned) => H.CodecOk(codec) && owned(hook)
  }

  /** The file as a first installation treats it. */
  ghost function FileOf(path: Path, k: Kind): Artifact {
    match k
    case Whole(content) => WholeFile(path, content, false)
    case Block(body) => BlockFile(path, body, false)
    case Hook(codec, hook, owned) => H.HookFile(path, codec, hook, owned, false)
  }

  /** The file as a later installation treats it. */
  ghost function OwnedFileOf(path: Path, k: Kind): Artifact {
    match k
    case Whole(content) => WholeFile(path, content, true)
    case Block(body) => BlockFile(path, body, true)
    case Hook(codec, hook, owned) => H.HookFile(path, codec, hook, owned, true)
  }

  /** What merging makes of a file passes the final check, for every kind. */
  lemma {:induction false} KindPasses(path: Path, k: Kind, c: Option<Content>)
    requires KindOk(k)
    ensures ArtifactOk(FileOf(path, k))
    ensures FileOf(path, k).merge(c).Some? ==> Passes(FileOf(path, k), FileOf(path, k).merge(c))
  {
    match k {
      case Whole(content) =>
        WholeFileOk(path, content, false, c);
      case Block(body) =>
        BlockFileOk(path, body, false);
        BlockFilePasses(body, false, Text(c));
      case Hook(codec, hook, owned) =>
        H.HookFileOk(path, codec, hook, owned, false);
        H.HookFilePasses(codec, hook, owned, false, Text(c));
    }
  }

  /** The contents that a first installation takes: a file of its own must be absent, a text must have
      no marker line, and settings must decode to an object with room for the hook. */
  ghost predicate CanTake(k: Kind, c: Option<Content>) {
    match k
    case Whole(_) => c.None?
    case Block(_) => M.NoBlock(B.CODEX, Text(c))
    case Hook(codec, _, owned) => codec.read(Text(c)).Some? && H.Takes(codec.read(Text(c)).value, owned, false)
  }

  /** The contents that a later installation takes: any file of its own, a text with at most one block
      between its marker lines, and settings with at most one hook of the installer. */
  ghost predicate CanTakeAgain(k: Kind, c: Option<Content>) {
    match k
    case Whole(_) => true
    case Block(_) => M.NoBlock(B.CODEX, Text(c)) || exists b: nat, e: nat :: M.Marked(B.CODEX, Text(c), b, e) && b <= e
    case Hook(codec, _, owned) => codec.read(Text(c)).Some? && H.Takes(codec.read(Text(c)).value, owned, true)
  }

  lemma {:induction false} KindMergesIff(path: Path, k: Kind, c: Option<Content>)
    ensures FileOf(path, k).merge(c).Some? <==> CanTake(k, c)
    ensures OwnedFileOf(path, k).merge(c).Some? <==> CanTakeAgain(k, c)
  {
    match k {
      case Whole(_) =>
      case Block(body) =>
        B.CodexMarksOk();
        M.MergesIff(B.CODEX, Text(c), L.Block(B.CODEX, body));
        M.MarkerCount(Text(c), B.CODEX.begin);
        M.MarkerCount(Text(c), B.CODEX.end);
      case Hook(codec, hook, owned) =>
        H.HookFileMergesIff(codec, hook, owned, false, Text(c));
        H.HookFileMergesIff(codec, hook, owned, true, Text(c));
    }
  }

  ghost predicate AllCanTake(kinds: seq<Kind>, active: seq<Artifact>, files: Files)
    requires |kinds| == |active|
  {
    forall i :: 0 <= i < |active| ==> CanTake(kinds[i], At(files, active[i].path))
  }

  lemma {:induction false} AllMergeIff(kinds: seq<Kind>, active: seq<Artifact>, files: Files)
    requires OfKinds(active, kinds)
    ensures Mergeable(active, |active|, files) <==> AllCanTake(kinds, active, files)
  {
    forall i | 0 <= i < |active|
      ensures active[i].merge(At(files, active[i].path)).Some? <==> CanTake(kinds[i], At(files, active[i].path))
    {
      KindMergesIff(active[i].path, kinds[i], At(files, active[i].path));
    }
  }

  /** The files are of these kinds, at these paths. */
  ghost predicate OfKinds(active: seq<Artifact>, kinds: seq<Kind>) {
    |kinds| == |active| && forall i :: 0 <= i < |active| ==> KindOk(kinds[i]) && active[i] == FileOf(active[i].path, kinds[i])
  }

  /** A first installation. Without faults it is applied exactly when every file can take its managed
      part and there is something to do; with a single fault it never ends half done. */
  method FirstInstall(root: Root, kinds: seq<Kind>, active: seq<Artifact>, overrides: seq<Path>, statePath: Path, newState: Content)
    returns (out: InstallTransaction.Outcome)
    requires OfKinds(active, kinds) && DistinctActive(active) && OverridesOk(overrides, active, statePath)
    modifies root
    ensures Quiet(old(root.readFaults), old(root.writeFaults)) ==>
              && (out.Applied? <==> AllCanTake(kinds, active, old(root.files)) && HasWork(active, overrides, old(root.files)))
              && (out.Unchanged? <==> AllCanTake(kinds, active, old(root.files)) && !HasWork(active, overrides, old(root.files)))
              && (out.Refused? <==> !AllCanTake(kinds, active, old(root.files)))
    ensures out.Applied? ==> Installed(active, overrides, statePath, newState, old(root.files), root.files)
    ensures out.Refused? || out.Unchanged? ==> root.files == old(root.files)
    ensures FaultsIn(old(root.readFaults), old(root.writeFaults)) <= 1 ==> !out.RecoveryFailed?
  {
    forall i | 0 <= i < |active|
      ensures ArtifactOk(active[i])
      ensures active[i].merge(At(root.files, active[i].path)).Some? ==> Passes(active[i], active[i].merge(At(root.files, active[i].path)))
    {
      KindPasses(active[i].path, kinds[i], At(root.files, active[i].path));
    }
    AllMergeIff(kinds, active, root.files);
    ghost var lost;
    out, lost := root.Install([], active, overrides, statePath, newState);
  }

  /** The files that come back byte for byte: those that were absent, texts of whole lines, and settings
      that were tidy and formatted as the program formats them. */
  ghost predicate ComesBack(k: Kind, c: Option<Content>) {
    c.None?
    || match k
       case Whole(_) => true
       case Block(_) => B.WholeLines(c.value)
       case Hook(codec, _, _) =>
         var s := codec.read(c.value);
         s.Some? && H.Tidy(s.value) && codec.write(s.value) == c.value
  }

  lemma {:induction false} FileRoundTrip(path: Path, k: Kind, c: Option<Content>)
    requires KindOk(k) && FileOf(path, k).merge(c).Some?
    ensures RoundTrip(FileOf(path, k), c) <==> ComesBack(k, c)
  {
    match k {
      case Whole(content) =>
        WholeFileOk(path, content, false, c);
      case Block(body) =>
        BlockFileRoundTrip(path, body, c);
        assert c.Some? ==> c.value + [B.LF] != c.value;
      case Hook(codec, hook, owned) =>
        H.HookFileOk(path, codec, hook, owned, false);
        if c.Some? {
          SettingsComeBack(codec, hook, owned, c.value);
        }
    }
  }

  lemma {:induction false} SettingsComeBack(codec: H.Codec, hook: H.Entry, owned: H.Entry -> bool, c: Content)
    requires H.CodecOk(codec) && owned(hook) && H.MergeHook(codec, hook, owned, false, c).Some?
    ensures H.ReinstateHook(codec, owned, c, H.MergeHook(codec, hook, owned, false, c).value) == Some(c)
            <==> H.Tidy(codec.read(c).value) && codec.write(codec.read(c).value) == c
  {
    H.HookFileRoundTrip("", codec, hook, owned, c);
    var r := H.ReinstateHook(codec, owned, c, H.MergeHook(codec, hook, owned, false, c).value).value;
    var t: H.Settings :| r == codec.write(t);
    assert codec.read(codec.write(t)) == Some(t);
  }

  /** After a first installation and its rollback, exactly these managed files are as before. */
  lemma {:induction false} FirstInstallComesBack(kinds: seq<Kind>, active: seq<Artifact>, overrides: seq<Path>, manifest: seq<Backup>,
                                                 statePath: Path, newState: Content, pre: Files, mid: Files, files: Files, i: nat)
    requires |kinds| == |active| && i < |active| && KindOk(kinds[i]) && active[i] == FileOf(active[i].path, kinds[i])
    requires OverridesOk(overrides, active, statePath) && |manifest| == |active|
    requires forall j :: 0 <= j < |active| ==> manifest[j] == Backup(active[j], At(pre, active[j].path))
    requires Installed(active, overrides, statePath, newState, pre, mid)
    requires RolledBackTo(manifest, statePath, At(pre, statePath), mid, files)
    ensures At(files, active[i].path) == At(pre, active[i].path) <==> ComesBack(kinds[i], At(pre, active[i].path))
  {
    InstallThenRollback(active, overrides, manifest, statePath, newState, pre, mid, files);
    FileRoundTrip(active[i].path, kinds[i], At(pre, active[i].path));
  }

  // ---------------------------------------------------------------- rollbacks without and with faults

  /** An installed file of some kind. Merging is different then: the file may have its managed part. */
  ghost predicate InstalledKind(a: Artifact, k: Kind) {
    KindOk(k) && a == FileOf(a.path, k).(merge := a.merge)
  }

  ghost predicate InstalledKinds(installed: seq<Artifact>, kinds: seq<Kind>) {
    |kinds| == |installed| && forall i :: 0 <= i < |installed| ==> InstalledKind(installed[i], kinds[i])
  }

  lemma {:induction false} OwnedFilesToo(path: Path, k: Kind)
    requires KindOk(k)
    ensures InstalledKind(FileOf(path, k), k) && InstalledKind(OwnedFileOf(path, k), k)
  {
  }

  /** A file that is as it was installed can go back to any backup. */
  lemma {:induction false} IntactIsRestorable(a: Artifact, k: Kind, prior: Option<Content>, now: Content)
    requires InstalledKind(a, k) && a.accepts(now)
    ensures Restored(Backup(a, prior), Some(now), true).Some?
  {
    match k {
      case Whole(_) =>
      case Block(_) =>
        assert B.Managed(B.CODEX, now).Ok?;
      case Hook(codec, hook, owned) =>
        var s := codec.read(now).value;
        assert H.Managed(s, owned).Done? && H.Entries(s) != [];
    }
  }

  lemma {:induction false} IntactAreRestorable(kinds: seq<Kind>, installed: seq<Artifact>, manifest: seq<Backup>, files: Files)
    requires InstalledKinds(installed, kinds) && Intact(installed, |installed|, files)
    requires forall i :: 0 <= i < |manifest| ==> manifest[i].artifact in installed
    ensures Restorable(manifest, Paths(manifest), true, files)
  {
    forall i | 0 <= i < |manifest|
      ensures Restored(manifest[i], At(files, manifest[i].artifact.path), true).Some?
    {
      var j :| 0 <= j < |installed| && installed[j] == manifest[i].artifact;
      IntactIsRestorable(installed[j], kinds[j], manifest[i].prior, At(files, installed[j].path).value);
    }
  }

  /** Rolling back an installation of these kinds. A rollback that starts gets through exactly when every
      read and write works; with a single fault it never ends half done. */
  method RollBackInstalled(root: Root, kinds: seq<Kind>, installed: seq<Artifact>, manifest: seq<Backup>, statePath: Path,
                           prior: Option<Content>) returns (out: InstallRollback.Outcome)
    requires InstalledKinds(installed, kinds) && statePath !in ActivePaths(installed)
    requires forall i :: 0 <= i < |manifest| ==> manifest[i].artifact in installed
    modifies root
    ensures out.RolledBack? ==> RolledBackTo(manifest, statePath, prior, old(root.files), root.files)
    ensures out.NotStarted? || out.PutBack? ==> root.files == old(root.files)
    ensures out.NotStarted? <==> !Starts(installed, manifest, statePath, old(root.files), old(root.readFaults), old(root.writeFaults))
    ensures out.RolledBack? <==>
              && Starts(installed, manifest, statePath, old(root.files), old(root.readFaults), old(root.writeFaults))
              && RollbackServed(installed, manifest, old(root.files), old(root.readFaults), old(root.writeFaults))
    ensures FaultsIn(old(root.readFaults), old(root.writeFaults)) <= 1 ==> !out.Stuck?
  {
    if Intact(installed, |installed|, root.files) {
      IntactAreRestorable(kinds, installed, manifest, root.files);
    }
    out := Rollback(root, installed, manifest, statePath, prior);
  }

  lemma {:induction false} NothingFails(installed: seq<Artifact>, manifest: seq<Backup>, files: Files)
    ensures RollbackServed(installed, manifest, files, [], []) && FirstReads([], 1 + |installed|)
  {
  }

  /** A first installation and, if it was applied, a rollback without faults to the contents before it:
      the rollback takes place, and exactly the files that come back are as before. */
  method InstallAndRollBack(root: Root, kinds: seq<Kind>, active: seq<Artifact>, overrides: seq<Path>, statePath: Path, newState: Content)
    returns (out: InstallTransaction.Outcome, back: Option<InstallRollback.Outcome>, after: Root)
    requires OfKinds(active, kinds) && DistinctActive(active) && OverridesOk(overrides, active, statePath)
    modifies root
    ensures back.Some? <==> out.Applied?
    ensures (Quiet(old(root.readFaults), old(root.writeFaults)) && AllCanTake(kinds, active, old(root.files))
             && HasWork(active, overrides, old(root.files))) ==> out.Applied?
    ensures out.Applied? ==>
              && back == Some(InstallRollback.RolledBack)
              && (forall i :: 0 <= i < |active| ==>
                    (At(after.files, active[i].path) == At(old(root.files), active[i].path)
                     <==> ComesBack(kinds[i], At(old(root.files), active[i].path))))
              && (forall p :: p !in ActivePaths(active) ==>
                    At(after.files, p)
                    == if p in overrides && At(old(root.files), p) == None then Some(STUB) else At(old(root.files), p))
  {
    ghost var pre := root.files;
    var prior := At(root.files, statePath);
    var manifest := seq(|active|, i requires 0 <= i < |active| reads root => Backup(active[i], At(root.files, active[i].path)));
    assert forall i :: 0 <= i < |active| ==> manifest[i] == Backup(active[i], At(pre, active[i].path));
    back, after := None, root;
    out := FirstInstall(root, kinds, active, overrides, statePath, newState);
    if out.Applied? {
      after := new Root(root.files, [], []);
      BackupPaths(manifest, active);
      NothingFails(active, manifest, after.files);
      assert Starts(active, manifest, statePath, after.files, [], []);
      var rolledBack := RollBackInstalled(after, kinds, active, manifest, statePath, prior);
      back := Some(rolledBack);
      InstallThenRollback(active, overrides, manifest, statePath, newState, pre, root.files, after.files);
      forall i | 0 <= i < |active|
        ensures At(after.files, active[i].path) == At(pre, active[i].path) <==> ComesBack(kinds[i], At(pre, active[i].path))
      {
        FirstInstallComesBack(kinds, active, overrides, manifest, statePath, newState, pre, root.files, after.files, i);
      }
    }
  }
}
