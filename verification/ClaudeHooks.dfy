/** The hook that the installer manages inside a settings file, on the decoded settings. */
module ClaudeHooks {
  import opened Options
  import opened InstallTransaction
  import opened InstallRollback

  type Entry = string

  /** The value under "hooks": absent, the null value, something else that is no table of lists, or a
      table from events to their entries. */
  datatype Hooks = NoHooks | NullHooks | BadHooks | Table(events: map<string, seq<Entry>>)

  /** A settings file that holds the null value decodes too. */
  datatype Settings = NullSettings | Settings(other: map<string, string>, hooks: Hooks)

  const EMPTY := Settings(map[], NoHooks)

  const EVENT := "UserPromptSubmit"

  datatype Result<+T> = Done(value: T) | Unfit | Panics

  function Entries(s: Settings): seq<Entry> {
    if s.Settings? && s.hooks.Table? && EVENT in s.hooks.events then s.hooks.events[EVENT] else []
  }

  /** The entries that belong to the user. */
  function Foreign(entries: seq<Entry>, owned: Entry -> bool): seq<Entry> {
    if entries == [] then []
    else
      var last := entries[|entries| - 1];
      Foreign(entries[..|entries| - 1], owned) + if owned(last) then [] else [last]
  }

  function OwnedOf(entries: seq<Entry>, owned: Entry -> bool): seq<Entry> {
    if entries == [] then []
    else
      var last := entries[|entries| - 1];
      OwnedOf(entries[..|entries| - 1], owned) + if owned(last) then [last] else []
  }

  /** The loop over the entries: what is kept, and what is owned. */
  method Split(entries: seq<Entry>, owned: Entry -> bool) returns (kept: seq<Entry>, found: seq<Entry>)
    ensures kept == Foreign(entries, owned) && found == OwnedOf(entries, owned)
  {
    kept, found := [], [];
    for i := 0 to |entries|
      invariant kept == Foreign(entries[..i], owned) && found == OwnedOf(entries[..i], owned)
    {
      assert entries[..i + 1][..i] == entries[..i];
      if owned(entries[i]) {
        found := found + [entries[i]];
      } else {
        kept := kept + [entries[i]];
      }
    }
    assert entries[..|entries|] == entries;
  }

  /** Puts the hook behind the user's entries. Assigning into the null table is a run-time panic. */
  function Merge(s: Settings, hook: Entry, owned: Entry -> bool): Result<Settings> {
    if s.NullSettings? then Panics
    else if s.hooks.BadHooks? then Unfit
    else if |OwnedOf(Entries(s), owned)| > 1 then Unfit
    else if s.hooks.NullHooks? then Panics
    else
      var events := if s.hooks.Table? then s.hooks.events else map[];
      Done(s.(hooks := Table(events[EVENT := Foreign(Entries(s), owned) + [hook]])))
  }

  function Managed(s: Settings, owned: Entry -> bool): Result<Entry> {
    var found := OwnedOf(Entries(s), owned);
    if |found| == 1 then Done(found[0]) else Unfit
  }

  /** Takes all owned hooks out, and what is empty then. */
  function Remove(s: Settings, owned: Entry -> bool): Result<Settings> {
    if s.NullSettings? then Done(s)
    else if s.hooks.BadHooks? then Unfit
    else
      var events := if s.hooks.Table? then s.hooks.events else map[];
      var kept := Foreign(Entries(s), owned);
      var left := if kept == [] then events - {EVENT} else events[EVENT := kept];
      Done(s.(hooks := if left == map[] then NoHooks else Table(left)))
  }

  // ---------------------------------------------------------------- laws

  lemma {:induction false} OneMore(entries: seq<Entry>, last: Entry, owned: Entry -> bool)
    ensures Foreign(entries + [last], owned) == Foreign(entries, owned) + if owned(last) then [] else [last]
    ensures OwnedOf(entries + [last], owned) == OwnedOf(entries, owned) + if owned(last) then [last] else []
  {
    assert (entries + [last])[..|entries|] == entries;
  }

  lemma {:induction false} ForeignAgain(entries: seq<Entry>, owned: Entry -> bool)
    ensures Foreign(Foreign(entries, owned), owned) == Foreign(entries, owned)
    ensures OwnedOf(Foreign(entries, owned), owned) == []
    ensures OwnedOf(entries, owned) == [] ==> Foreign(entries, owned) == entries
  {
    if entries != [] {
      var front, last := entries[..|entries| - 1], entries[|entries| - 1];
      assert entries == front + [last];
      ForeignAgain(front, owned);
      var kept, found := Foreign(front, owned), OwnedOf(front, owned);
      if owned(last) {
        assert Foreign(entries, owned) == kept && OwnedOf(entries, owned) == found + [last];
      } else {
        assert Foreign(entries, owned) == kept + [last] && OwnedOf(entries, owned) == found;
        OneMore(kept, last, owned);
        assert Foreign(kept + [last], owned) == kept + [last] && OwnedOf(kept + [last], owned) == [];
      }
    }
  }

  /** After a merge the hook is the managed one; the user's entries, the other events and the other
      settings are untouched; merging again changes nothing; and taking the hook out leaves what taking
      it out before would have left. */
  lemma {:induction false} MergeLaws(s: Settings, hook: Entry, owned: Entry -> bool)
    requires owned(hook) && Merge(s, hook, owned).Done?
    ensures var t := Merge(s, hook, owned).value;
            && Managed(t, owned) == Done(hook)
            && Foreign(Entries(t), owned) == Foreign(Entries(s), owned)
            && t.other == s.other
            && (forall e :: e != EVENT ==> (e in t.hooks.events <==> s.hooks.Table? && e in s.hooks.events))
            && (forall e :: e != EVENT && e in t.hooks.events ==> t.hooks.events[e] == s.hooks.events[e])
            && Merge(t, hook, owned) == Done(t)
            && Remove(t, owned) == Remove(s, owned)
  {
    var kept := Foreign(Entries(s), owned);
    ForeignAgain(Entries(s), owned);
    OneMore(kept, hook, owned);
    var t := Merge(s, hook, owned).value;
    assert Entries(t) == kept + [hook];
    var events := if s.hooks.Table? then s.hooks.events else map[];
    assert t.hooks.events - {EVENT} == events - {EVENT};
    assert t.hooks.events[EVENT := kept] == events[EVENT := kept];
    assert t.hooks.events[EVENT := kept + [hook]] == t.hooks.events;
  }

  /** Settings without empty lists and tables around the managed event. */
  predicate Tidy(s: Settings) {
    s.Settings? && (s.hooks.NoHooks? || (s.hooks.Table? && s.hooks.events != map[] && (EVENT in s.hooks.events ==> s.hooks.events[EVENT] != [])))
  }

  /** Taking the hook out of settings that never had it gives the same settings exactly when they were
      tidy, or null. */
  lemma {:induction false} RemoveIsExact(s: Settings, owned: Entry -> bool)
    requires OwnedOf(Entries(s), owned) == []
    ensures Remove(s, owned) == Done(s) <==> s.NullSettings? || Tidy(s)
  {
    ForeignAgain(Entries(s), owned);
    if s.Settings? && s.hooks.Table? && EVENT in s.hooks.events {
      assert s.hooks.events[EVENT := s.hooks.events[EVENT]] == s.hooks.events;
      assert EVENT !in (s.hooks.events - {EVENT});
    } else if s.Settings? && s.hooks.Table? {
      assert s.hooks.events - {EVENT} == s.hooks.events;
    }
  }

  // ---------------------------------------------------------------- the file

  /** Decoding and encoding of settings files; formatting is lost. */
  datatype Codec = Codec(read: Content -> Option<Settings>, write: Settings -> Content)

  ghost predicate CodecOk(c: Codec) {
    c.read([]) == Some(EMPTY) && forall s :: c.read(c.write(s)) == Some(s)
  }

  function MergeHook(codec: Codec, hook: Entry, owned: Entry -> bool, known: bool, c: Content): Option<Content> {
    match codec.read(c)
    case None => None
    case Some(s) =>
      if !known && OwnedOf(Entries(s), owned) != [] then None
      else (match Merge(s, hook, owned) case Done(t) => Some(codec.write(t)) case _ => None)
  }

  /** Null settings count as empty, too. */
  predicate IsEmpty(s: Settings) {
    s.NullSettings? || s == EMPTY
  }

  function RemoveHook(codec: Codec, owned: Entry -> bool, c: Content): Option<Option<Content>> {
    match codec.read(c)
    case None => None
    case Some(s) =>
      match Remove(s, owned)
      case Done(t) => Some(if IsEmpty(t) then None else Some(codec.write(t)))
      case _ => None
  }

  function ReinstateHook(codec: Codec, owned: Entry -> bool, prior: Content, c: Content): Option<Content> {
    var was := match codec.read(prior) case None => Unfit case Some(s) => Managed(s, owned);
    match codec.read(c)
    case None => None
    case Some(now) =>
      match if was.Done? then Merge(now, was.value, owned) else Remove(now, owned)
      case Done(t) => Some(codec.write(t))
      case _ => None
  }

  predicate HasHook(codec: Codec, hook: Entry, owned: Entry -> bool, c: Content) {
    codec.read(c).Some? && Managed(codec.read(c).value, owned) == Done(hook)
  }

  /** A settings file with a managed hook. Before it is `known` it must not have one. */
  ghost function HookFile(path: Path, codec: Codec, hook: Entry, owned: Entry -> bool, known: bool): Artifact {
    Artifact(path,
             (c: Option<Content>) => MergeHook(codec, hook, owned, known, Text(c)),
             (c: Content) => RemoveHook(codec, owned, c),
             (prior: Content, c: Content) => ReinstateHook(codec, owned, prior, c),
             (c: Content) => HasHook(codec, hook, owned, c))
  }

  predicate AtMostOne(entries: seq<Entry>, owned: Entry -> bool) {
    forall i, j :: 0 <= i < j < |entries| ==> !owned(entries[i]) || !owned(entries[j])
  }

  predicate NoneOwned(entries: seq<Entry>, owned: Entry -> bool) {
    forall i :: 0 <= i < |entries| ==> !owned(entries[i])
  }

  /** Settings that can take the hook: an object whose hooks are absent or a table, with no owned entry
      before the installation and at most one after it. */
  predicate Takes(s: Settings, owned: Entry -> bool, known: bool) {
    && s.Settings? && (s.hooks.NoHooks? || s.hooks.Table?)
    && if known then AtMostOne(Entries(s), owned) else NoneOwned(Entries(s), owned)
  }

  lemma {:induction false} OwnedCount(entries: seq<Entry>, owned: Entry -> bool)
    ensures OwnedOf(entries, owned) == [] <==> NoneOwned(entries, owned)
    ensures |OwnedOf(entries, owned)| <= 1 <==> AtMostOne(entries, owned)
  {
    if entries != [] {
      var front, last := entries[..|entries| - 1], entries[|entries| - 1];
      OwnedCount(front, owned);
      assert forall i :: 0 <= i < |front| ==> front[i] == entries[i];
      if owned(last) {
        assert AtMostOne(entries, owned) <==> NoneOwned(front, owned);
      }
    }
  }

  /** Which contents the hook can be merged into. */
  lemma {:induction false} HookFileMergesIff(codec: Codec, hook: Entry, owned: Entry -> bool, known: bool, c: Content)
    ensures MergeHook(codec, hook, owned, known, c).Some? <==>
              codec.read(c).Some? && Takes(codec.read(c).value, owned, known)
  {
    if codec.read(c).Some? {
      OwnedCount(Entries(codec.read(c).value), owned);
    }
  }

  /** An installation stops at any other content before it has written a file. For the null values the
      program does not refuse, it panics while it plans. */
  method InstallStopsOnHook(root: Root, installed: seq<Artifact>, active: seq<Artifact>, overrides: seq<Path>, statePath: Path,
                            newState: Content, k: nat, codec: Codec, hook: Entry, owned: Entry -> bool, known: bool)
    returns (out: InstallTransaction.Outcome)
    requires DistinctActive(active) && OverridesOk(overrides, active, statePath)
    requires forall i :: 0 <= i < |active| ==> ArtifactOk(active[i])
    requires k < |active| && active[k] == HookFile(active[k].path, codec, hook, owned, known)
    requires var c := Text(At(root.files, active[k].path)); codec.read(c).None? || !Takes(codec.read(c).value, owned, known)
    modifies root
    ensures out.Refused? && root.files == old(root.files)
  {
    HookFileMergesIff(codec, hook, owned, known, Text(At(root.files, active[k].path)));
    assert !Mergeable(active, |active|, root.files);
    ghost var lost;
    out, lost := root.Install(installed, active, overrides, statePath, newState);
  }

  /** The hook in settings that were empty, and taken out again. */
  lemma {:induction false} MergeIntoNothing(hook: Entry, owned: Entry -> bool)
    requires owned(hook)
    ensures Merge(EMPTY, hook, owned).Done? && Remove(Merge(EMPTY, hook, owned).value, owned) == Done(EMPTY)
  {
    MergeLaws(EMPTY, hook, owned);
    RemoveIsExact(EMPTY, owned);
  }

  /** The hook file meets what the transaction needs of it. */
  lemma {:induction false} HookFileOk(path: Path, codec: Codec, hook: Entry, owned: Entry -> bool, known: bool)
    requires CodecOk(codec) && owned(hook)
    ensures ArtifactOk(HookFile(path, codec, hook, owned, known))
  {
    MergeIntoNothing(hook, owned);
    var t := Merge(EMPTY, hook, owned).value;
    assert codec.read(codec.write(t)) == Some(t);
    assert MergeHook(codec, hook, owned, known, []) == Some(codec.write(t));
    assert RemoveHook(codec, owned, codec.write(t)) == Some(None);
  }

  /** A merge that is accepted passes the final check. */
  lemma {:induction false} HookFilePasses(codec: Codec, hook: Entry, owned: Entry -> bool, known: bool, c: Content)
    requires CodecOk(codec) && owned(hook)
    ensures MergeHook(codec, hook, owned, known, c).Some? ==> HasHook(codec, hook, owned, MergeHook(codec, hook, owned, known, c).value)
  {
    if MergeHook(codec, hook, owned, known, c).Some? {
      var s := codec.read(c).value;
      MergeLaws(s, hook, owned);
      var t := Merge(s, hook, owned).value;
      assert codec.read(codec.write(t)) == Some(t);
    }
  }

  /** Rolling an update back puts the earlier hook into the settings as they are now; the user's entries
      and settings stay. */
  lemma {:induction false} HookFileRolledBack(codec: Codec, owned: Entry -> bool, prior: Content, now: Content)
    requires CodecOk(codec) && codec.read(prior).Some? && codec.read(now).Some?
    requires Managed(codec.read(prior).value, owned).Done? && Managed(codec.read(now).value, owned).Done?
    ensures var earlier := Managed(codec.read(prior).value, owned).value;
            var r := ReinstateHook(codec, owned, prior, now);
            && r.Some? && HasHook(codec, earlier, owned, r.value)
            && RemoveHook(codec, owned, r.value) == RemoveHook(codec, owned, now)
  {
    var was, s := codec.read(prior).value, codec.read(now).value;
    OwnedAreOwned(Entries(was), owned);
    MergeLaws(s, Managed(was, owned).value, owned);
    var t := Merge(s, Managed(was, owned).value, owned).value;
    assert codec.read(codec.write(t)) == Some(t);
  }

  lemma {:induction false} OwnedAreOwned(entries: seq<Entry>, owned: Entry -> bool)
    ensures forall i :: 0 <= i < |OwnedOf(entries, owned)| ==> owned(OwnedOf(entries, owned)[i])
  {
    if entries != [] {
      OwnedAreOwned(entries[..|entries| - 1], owned);
    }
  }

  /** Rolling a first installation back gives the user's settings back, up to formatting, exactly when
      they were tidy; a file that was absent is absent again. */
  lemma {:induction false} HookFileRoundTrip(path: Path, codec: Codec, hook: Entry, owned: Entry -> bool, c: Content)
    requires CodecOk(codec) && owned(hook) && MergeHook(codec, hook, owned, false, c).Some?
    ensures var r := ReinstateHook(codec, owned, c, MergeHook(codec, hook, owned, false, c).value);
            r.Some? && (codec.read(r.value) == codec.read(c) <==> Tidy(codec.read(c).value))
  {
    var s := codec.read(c).value;
    MergeLaws(s, hook, owned);
    var t := Merge(s, hook, owned).value;
    assert codec.read(codec.write(t)) == Some(t);
    RemoveIsExact(s, owned);
    if Remove(s, owned).Done? {
      assert codec.read(codec.write(Remove(s, owned).value)) == Some(Remove(s, owned).value);
    }
  }
}
