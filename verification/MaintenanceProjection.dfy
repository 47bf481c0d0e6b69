/** The private cache of original client descriptions. It lets the maintenance worker always start
    from what the client wrote, never from what a model derived from it. */
module MaintenanceProjection {
  import opened Options
  import opened CatalogTypes
  import opened MaintenanceMerge

  type Key = (string, string)

  function KeyOf(e: Entry): Key { (e.namespace, e.tag) }

  /** The original of one card, and the digests of the live entries it stands for. */
  datatype Projection = Projection(original: Entry, liveHashes: seq<Hash>)

  type Cache = map<Key, Projection>

  /** A stored proposal: the original cards it was made from, and the entries it would publish. */
  datatype Artifact = Artifact(originals: seq<Entry>, published: seq<Published>)

  /** What the worker takes from its surroundings: the entry digest, the admission rule, the rule
      for registered sources, and whether the version history of the catalog contains an entry. */
  datatype Rules = Rules(
    entryHash: Entry -> Hash,
    admits: Entry -> bool,
    registered: Entry -> bool,
    history: Entry -> bool)

  ghost predicate RulesOk(u: Rules) {
    forall a, b :: u.entryHash(a) == u.entryHash(b) ==> a == b
  }

  predicate SameCatalogSourceIdentity(original: Entry, live: Entry) {
    && SameKey(original, live) && original.name == live.name && original.projectId == live.projectId
    && original.projectKey == live.projectKey && original.owner == live.owner && original.status == live.status
    && (original.declaredSummary == live.declaredSummary
        || (live.source == ModelDerived && original.declaredSummary == "" && live.declaredSummary == original.desc.summary))
    && (live.source == original.source || live.source == ModelDerived)
    && original.evidence == live.evidence
  }

  predicate MatchesLive(u: Rules, r: Projection, live: Entry) {
    SameCatalogSourceIdentity(r.original, live) && u.entryHash(live) in r.liveHashes
  }

  /** A later derived entry counts only when the version history contains it. */
  predicate HistoryMatches(u: Rules, r: Projection, live: Entry) {
    live.source == ModelDerived && SameCatalogSourceIdentity(r.original, live) && u.history(live)
  }

  const NO_DESCRIPTION := Description("", [], [], [], [], [], [], [], [])

  /** A derived card without a trusted original: its text is blanked and it is not processed. */
  function Blanked(live: Entry): Entry {
    live.(desc := NO_DESCRIPTION.(summary := live.declaredSummary, evidenceRefs := live.desc.evidenceRefs))
  }

  datatype Restored = Restored(entry: Entry, blocked: bool)

  function RestoreOne(u: Rules, cache: Cache, live: Entry): Restored {
    if KeyOf(live) in cache && MatchesLive(u, cache[KeyOf(live)], live) then Restored(cache[KeyOf(live)].original, false)
    else if KeyOf(live) in cache && HistoryMatches(u, cache[KeyOf(live)], live) then Restored(cache[KeyOf(live)].original, false)
    else if live.source == ModelDerived then Restored(Blanked(live), true)
    else Restored(live, false)
  }

  /** The original cards, in the order of the live ones; a card whose original is not admitted is
      left out. */
  function RestoreAll(u: Rules, cache: Cache, cards: seq<Entry>): seq<Entry> {
    if cards == [] then []
    else
      var r := RestoreOne(u, cache, cards[0]);
      (if u.admits(r.entry) then [r.entry] else []) + RestoreAll(u, cache, cards[1..])
  }

  function Blocked(u: Rules, cache: Cache, cards: seq<Entry>): set<Key> {
    set e | e in cards && (RestoreOne(u, cache, e).blocked || !u.admits(RestoreOne(u, cache, e).entry)) :: KeyOf(e)
  }

  /** The last admitted entry with a key. */
  function LiveFor(u: Rules, current: seq<Entry>, k: Key): Option<Entry> {
    if current == [] then None
    else if KeyOf(current[|current| - 1]) == k && u.admits(current[|current| - 1]) then Some(current[|current| - 1])
    else LiveFor(u, current[..|current| - 1], k)
  }

  function OriginalFor(originals: seq<Entry>, k: Key): Option<Entry> {
    var i := FindEntry(originals, k.0, k.1);
    if i == |originals| then None else Some(originals[i])
  }

  /** Records of cards that are no longer live are dropped. */
  function KeepLive(u: Rules, cache: Cache, current: seq<Entry>): Cache {
    map k | k in cache && LiveFor(u, current, k).Some? :: cache[k]
  }

  // ---------------------------------------------------------------- persisting originals

  function WithExpected(r: Projection, expected: Hash): Projection {
    if expected in r.liveHashes then r else r.(liveHashes := r.liveHashes + [expected])
  }

  /** The record of one card before its description is replaced; nothing when its original is not
      certain. */
  function PersistOne(u: Rules, cache: Cache, live: Entry, original: Entry, expected: Hash): Option<Cache> {
    var k, h := KeyOf(live), u.entryHash(live);
    var first := Projection(original, [h]);
    var ok :=
      if k in cache then
        if MatchesLive(u, cache[k], live) then cache[k].original == original
        else if live.source == ModelDerived then HistoryMatches(u, cache[k], live) && cache[k].original == original
        else SameCatalogSourceIdentity(original, live)
      else live.source != ModelDerived && SameCatalogSourceIdentity(original, live);
    if ok then Some(cache[k := WithExpected(first, expected)]) else None
  }

  function PersistFrom(u: Rules, cache: Cache, current: seq<Entry>, context: seq<Entry>, published: seq<Published>): Option<Cache>
    decreases |published|
  {
    if published == [] then Some(cache) else
    var k := (published[0].namespace, published[0].tag);
    var live, original := LiveFor(u, current, k), OriginalFor(context, k);
    if live.None? || original.None? || original.value.source == ModelDerived then None
    else match PersistOne(u, cache, live.value, original.value, published[0].entryHash)
      case None => None
      case Some(next) => PersistFrom(u, next, current, context, published[1..])
  }

  // ---------------------------------------------------------------- importing receipts

  function LastTwo(hashes: seq<Hash>): seq<Hash> {
    if |hashes| > 2 then hashes[|hashes| - 2..] else hashes
  }

  function ImportOne(u: Rules, cache: Cache, current: seq<Entry>, originals: seq<Entry>, item: Published): Cache {
    var k := (item.namespace, item.tag);
    var live, original := LiveFor(u, current, k), OriginalFor(originals, k);
    if live.None? || u.entryHash(live.value) != item.entryHash then cache
    else if original.None? || !SameCatalogSourceIdentity(original.value, live.value) || !u.registered(original.value) then cache
    else if k in cache then
      if cache[k].original != original.value || item.entryHash in cache[k].liveHashes then cache
      else cache[k := cache[k].(liveHashes := LastTwo(cache[k].liveHashes + [item.entryHash]))]
    else cache[k := Projection(original.value, [item.entryHash])]
  }

  function ImportItems(u: Rules, cache: Cache, current: seq<Entry>, originals: seq<Entry>, items: seq<Published>): Cache
    decreases |items|
  {
    if items == [] then cache
    else ImportItems(u, ImportOne(u, cache, current, originals, items[0]), current, originals, items[1..])
  }

  predicate HasDerived(originals: seq<Entry>) {
    exists i :: 0 <= i < |originals| && originals[i].source == ModelDerived
  }

  function ImportAll(u: Rules, cache: Cache, current: seq<Entry>, artifacts: seq<Artifact>): Cache
    decreases |artifacts|
  {
    if artifacts == [] then cache
    else
      var next := if HasDerived(artifacts[0].originals) then cache
                  else ImportItems(u, cache, current, artifacts[0].originals, artifacts[0].published);
      ImportAll(u, next, current, artifacts[1..])
  }

  // ---------------------------------------------------------------- the cache file

  datatype SaveResult = Saved | NotSaved | SavedWithError

  function NextSave(saves: seq<SaveResult>): SaveResult {
    if saves == [] then Saved else saves[0]
  }

  /** The projection file, rewritten as a whole. */
  class Projections {
    const rules: Rules
    var cache: Cache
    var saves: seq<SaveResult>

    constructor (rules: Rules, saves: seq<SaveResult>)
      ensures this.rules == rules && cache == map[] && this.saves == saves
    {
      this.rules, cache, this.saves := rules, map[], saves;
    }

    method Save(next: Cache) returns (ok: bool)
      modifies this
      ensures cache == if NextSave(old(saves)).NotSaved? then old(cache) else next
      ensures ok <==> NextSave(old(saves)).Saved?
    {
      var result := NextSave(saves);
      saves := if saves == [] then [] else saves[1..];
      if result != NotSaved {
        cache := next;
      }
      return result == Saved;
    }

    /** Makes the originals of all cards about to be published durable, all or none. */
    method PersistOriginals(current: seq<Entry>, context: seq<Entry>, published: seq<Published>) returns (ok: bool)
      modifies this
      ensures var next := PersistFrom(rules, KeepLive(rules, old(cache), current), current, context, published);
              && (ok <==> next.Some? && NextSave(old(saves)).Saved?)
              && cache == if next.None? || NextSave(old(saves)).NotSaved? then old(cache) else next.value
    {
      var work := KeepLive(rules, cache, current);
      assert published[0..] == published;
      for i := 0 to |published|
        invariant PersistFrom(rules, KeepLive(rules, cache, current), current, context, published)
                  == PersistFrom(rules, work, current, context, published[i..])
        invariant cache == old(cache) && saves == old(saves)
      {
        var expected := published[i];
        assert published[i..][0] == expected && published[i..][1..] == published[i + 1..];
        var k := (expected.namespace, expected.tag);
        var live := LiveFor(rules, current, k);
        if live.None? {
          return false;
        }
        var original := OriginalFor(context, k);
        if original.None? || original.value.source == ModelDerived {
          return false;
        }
        var next := PersistOne(rules, work, live.value, original.value, expected.entryHash);
        if next.None? {
          return false;
        }
        work := next.value;
      }
      assert published[|published|..] == [];
      ok := Save(work);
    }

    /** Imports what stored proposals prove, then restores the original of every card. */
    method RestoreOriginals(current: seq<Entry>, cards: seq<Entry>, artifacts: seq<Artifact>)
      returns (ok: bool, out: seq<Entry>, blocked: set<Key>)
      modifies this
      ensures var next := ImportAll(rules, KeepLive(rules, old(cache), current), current, artifacts);
              && (ok <==> next == old(cache) || NextSave(old(saves)).Saved?)
              && cache == (if NextSave(old(saves)).NotSaved? then old(cache) else next)
              && (ok ==> out == RestoreAll(rules, next, cards) && blocked == Blocked(rules, next, cards))
    {
      out, blocked := [], {};
      var work := ImportArtifacts(KeepLive(rules, cache, current), current, artifacts);
      if work != cache {
        ok := Save(work);
        if !ok {
          return;
        }
      }
      ok := true;
      out, blocked := RestoreCards(work, cards);
    }

    method ImportArtifacts(start: Cache, current: seq<Entry>, artifacts: seq<Artifact>) returns (work: Cache)
      ensures work == ImportAll(rules, start, current, artifacts)
    {
      work := start;
      assert artifacts[0..] == artifacts;
      for i := 0 to |artifacts|
        invariant ImportAll(rules, start, current, artifacts) == ImportAll(rules, work, current, artifacts[i..])
      {
        assert artifacts[i..][0] == artifacts[i] && artifacts[i..][1..] == artifacts[i + 1..];
        if !HasDerived(artifacts[i].originals) {
          work := ImportArtifact(work, current, artifacts[i]);
        }
      }
      assert artifacts[|artifacts|..] == [];
    }

    method RestoreCards(work: Cache, cards: seq<Entry>) returns (out: seq<Entry>, blocked: set<Key>)
      ensures out == RestoreAll(rules, work, cards) && blocked == Blocked(rules, work, cards)
    {
      out, blocked := [], {};
      for i := 0 to |cards|
        invariant out == RestoreAll(rules, work, cards[..i]) && blocked == Blocked(rules, work, cards[..i])
      {
        RestoreNext(rules, work, cards, i);
        var r := RestoreOne(rules, work, cards[i]);
        if r.blocked || !rules.admits(r.entry) {
          blocked := blocked + {KeyOf(cards[i])};
        }
        out := out + if rules.admits(r.entry) then [r.entry] else [];
      }
      assert cards[..|cards|] == cards;
    }

    method ImportArtifact(start: Cache, current: seq<Entry>, a: Artifact) returns (work: Cache)
      ensures work == ImportItems(rules, start, current, a.originals, a.published)
    {
      work := start;
      assert a.published[0..] == a.published;
      for i := 0 to |a.published|
        invariant ImportItems(rules, start, current, a.originals, a.published)
                  == ImportItems(rules, work, current, a.originals, a.published[i..])
      {
        assert a.published[i..][0] == a.published[i] && a.published[i..][1..] == a.published[i + 1..];
        work := ImportOne(rules, work, current, a.originals, a.published[i]);
      }
      assert a.published[|a.published|..] == [];
    }
  }

  lemma {:induction false} RestoreConcat(u: Rules, cache: Cache, a: seq<Entry>, b: seq<Entry>)
    ensures RestoreAll(u, cache, a + b) == RestoreAll(u, cache, a) + RestoreAll(u, cache, b)
    decreases |a|
  {
    if a == [] {
      assert a + b == b;
    } else {
      assert (a + b)[0] == a[0] && (a + b)[1..] == a[1..] + b;
      RestoreConcat(u, cache, a[1..], b);
    }
  }

  lemma {:induction false} RestoreNext(u: Rules, cache: Cache, cards: seq<Entry>, i: nat)
    requires i < |cards|
    ensures var r := RestoreOne(u, cache, cards[i]);
            && RestoreAll(u, cache, cards[..i + 1]) == RestoreAll(u, cache, cards[..i]) + (if u.admits(r.entry) then [r.entry] else [])
            && Blocked(u, cache, cards[..i + 1]) == Blocked(u, cache, cards[..i])
                 + (if r.blocked || !u.admits(r.entry) then {KeyOf(cards[i])} else {})
  {
    assert cards[..i + 1] == cards[..i] + [cards[i]];
    RestoreConcat(u, cache, cards[..i], [cards[i]]);
    assert [cards[i]][1..] == [];
  }

  // ---------------------------------------------------------------- generated text is never source

  /** A record stands only for its own original and for entries derived from the same source. */
  ghost predicate ProjectionOk(u: Rules, seen: iset<Entry>, k: Key, r: Projection) {
    && KeyOf(r.original) == k && r.original.source != ModelDerived && r.original in seen
    && 1 <= |r.liveHashes| <= 2
    && (forall e: Entry :: u.entryHash(e) in r.liveHashes && e.source != ModelDerived ==> e == r.original)
  }

  ghost predicate CacheOk(u: Rules, seen: iset<Entry>, cache: Cache) {
    forall k :: k in cache ==> ProjectionOk(u, seen, k, cache[k])
  }

  /** What a stored proposal says about one card. */
  ghost predicate ItemOk(u: Rules, seen: iset<Entry>, originals: seq<Entry>, item: Published) {
    var original := OriginalFor(originals, (item.namespace, item.tag));
    original.Some? && original.value.source != ModelDerived ==>
      && original.value in seen
      && (forall e: Entry :: u.entryHash(e) == item.entryHash && e.source != ModelDerived ==> e == original.value)
  }

  ghost predicate ArtifactOk(u: Rules, seen: iset<Entry>, a: Artifact) {
    forall i :: 0 <= i < |a.published| ==> ItemOk(u, seen, a.originals, a.published[i])
  }

  lemma {:induction false} LiveIn(u: Rules, current: seq<Entry>, k: Key)
    ensures LiveFor(u, current, k).Some? ==>
              && LiveFor(u, current, k).value in current && KeyOf(LiveFor(u, current, k).value) == k
              && u.admits(LiveFor(u, current, k).value)
    decreases |current|
  {
    if current != [] {
      LiveIn(u, current[..|current| - 1], k);
    }
  }

  /** The original of every card that is processed is an entry that the catalog itself once held
      as client text; a derived entry never passes as one. */
  lemma {:induction false} RestoredIsSource(u: Rules, seen: iset<Entry>, cache: Cache, live: Entry)
    requires RulesOk(u) && CacheOk(u, seen, cache) && (live.source != ModelDerived ==> live in seen)
    ensures var r := RestoreOne(u, cache, live);
            && (!r.blocked ==> r.entry in seen && r.entry.source != ModelDerived)
            && (live.source != ModelDerived ==> r == Restored(live, false))
            && KeyOf(r.entry) == KeyOf(live)
  {
    if KeyOf(live) in cache {
      assert ProjectionOk(u, seen, KeyOf(live), cache[KeyOf(live)]);
    }
  }

  lemma {:induction false} ImportOneOk(u: Rules, seen: iset<Entry>, cache: Cache, current: seq<Entry>, originals: seq<Entry>, item: Published)
    requires RulesOk(u) && CacheOk(u, seen, cache) && ItemOk(u, seen, originals, item) && !HasDerived(originals)
    ensures CacheOk(u, seen, ImportOne(u, cache, current, originals, item))
  {
    var k := (item.namespace, item.tag);
    var next := ImportOne(u, cache, current, originals, item);
    if next != cache {
      var original := OriginalFor(originals, k).value;
      assert original.source != ModelDerived;
      assert KeyOf(original) == k;
      if k in cache {
        assert ProjectionOk(u, seen, k, cache[k]);
      }
      assert ProjectionOk(u, seen, k, next[k]);
    }
  }

  lemma {:induction false} ImportItemsOk(u: Rules, seen: iset<Entry>, cache: Cache, current: seq<Entry>, originals: seq<Entry>, items: seq<Published>)
    requires RulesOk(u) && CacheOk(u, seen, cache) && !HasDerived(originals)
    requires forall i :: 0 <= i < |items| ==> ItemOk(u, seen, originals, items[i])
    ensures CacheOk(u, seen, ImportItems(u, cache, current, originals, items))
    decreases |items|
  {
    if items != [] {
      ImportOneOk(u, seen, cache, current, originals, items[0]);
      ImportItemsOk(u, seen, ImportOne(u, cache, current, originals, items[0]), current, originals, items[1..]);
    }
  }

  lemma {:induction false} ImportAllOk(u: Rules, seen: iset<Entry>, cache: Cache, current: seq<Entry>, artifacts: seq<Artifact>)
    requires RulesOk(u) && CacheOk(u, seen, cache)
    requires forall i :: 0 <= i < |artifacts| ==> ArtifactOk(u, seen, artifacts[i])
    ensures CacheOk(u, seen, ImportAll(u, cache, current, artifacts))
    decreases |artifacts|
  {
    if artifacts != [] {
      var a := artifacts[0];
      assert ArtifactOk(u, seen, a);
      if !HasDerived(a.originals) {
        ImportItemsOk(u, seen, cache, current, a.originals, a.published);
      }
      var next := if HasDerived(a.originals) then cache else ImportItems(u, cache, current, a.originals, a.published);
      ImportAllOk(u, seen, next, current, artifacts[1..]);
    }
  }

  /** The context that the worker passes on: the restored originals of the live cards. */
  ghost predicate IsContext(u: Rules, cache: Cache, current: seq<Entry>, context: seq<Entry>) {
    forall k :: LiveFor(u, current, k).Some? && OriginalFor(context, k).Some? ==>
      OriginalFor(context, k).value == RestoreOne(u, cache, LiveFor(u, current, k).value).entry
  }

  /** A derived entry predicted from `live` belongs to the same source as `live` does. */
  ghost predicate Replaces(live: Entry, next: Entry) {
    next == live || (exists candidate, refs :: next == Derived(live, candidate, refs))
  }

  lemma {:induction false} ReplacementKeepsSource(original: Entry, live: Entry, next: Entry)
    requires Replaces(live, next) && SameCatalogSourceIdentity(original, live)
    requires live.source != ModelDerived ==> original == live
    ensures SameCatalogSourceIdentity(original, next)
  {
  }

  // ---------------------------------------------------------------- before publishing

  lemma {:induction false} PersistOneOk(u: Rules, seen: iset<Entry>, cache: Cache, live: Entry, original: Entry, expected: Hash)
    requires RulesOk(u) && CacheOk(u, seen, cache) && (live.source != ModelDerived ==> live in seen)
    requires original == RestoreOne(u, cache, live).entry && original.source != ModelDerived
    requires forall e: Entry :: u.entryHash(e) == expected && e.source != ModelDerived ==> e == original
    requires PersistOne(u, cache, live, original, expected).Some?
    ensures CacheOk(u, seen, PersistOne(u, cache, live, original, expected).value)
    ensures RestoreOne(u, PersistOne(u, cache, live, original, expected).value, live) == Restored(original, false)
  {
    RestoredIsSource(u, seen, cache, live);
    var k := KeyOf(live);
    var next := PersistOne(u, cache, live, original, expected).value;
    assert ProjectionOk(u, seen, k, next[k]);
  }

  /** Once the original is durable, both the entry before the publication and the one after it
      restore to it. */
  lemma {:induction false} BothRestore(u: Rules, seen: iset<Entry>, cache: Cache, live: Entry, original: Entry, next: Entry)
    requires RulesOk(u) && CacheOk(u, seen, cache) && (live.source != ModelDerived ==> live in seen)
    requires original == RestoreOne(u, cache, live).entry && original.source != ModelDerived
    requires PersistOne(u, cache, live, original, u.entryHash(next)).Some? && Replaces(live, next)
    ensures var after := PersistOne(u, cache, live, original, u.entryHash(next)).value;
            && RestoreOne(u, after, live) == Restored(original, false)
            && RestoreOne(u, after, next) == Restored(original, false)
  {
    RestoredIsSource(u, seen, cache, live);
    ReplacementKeepsSource(original, live, next);
  }

  predicate DistinctKeys(published: seq<Published>) {
    forall i, j :: 0 <= i < j < |published| ==>
      published[i].namespace != published[j].namespace || published[i].tag != published[j].tag
  }

  /** Item `i` predicts `nexts[i]`, a replacement of the live card. */
  ghost predicate PredictsAll(u: Rules, current: seq<Entry>, published: seq<Published>, nexts: seq<Entry>) {
    && |nexts| == |published|
    && (forall i :: 0 <= i < |published| ==>
          && u.entryHash(nexts[i]) == published[i].entryHash
          && (var live := LiveFor(u, current, (published[i].namespace, published[i].tag));
              live.Some? ==> Replaces(live.value, nexts[i])))
  }

  lemma {:induction false} PersistUntouched(u: Rules, cache: Cache, current: seq<Entry>, context: seq<Entry>,
                                            published: seq<Published>, k: Key)
    requires PersistFrom(u, cache, current, context, published).Some?
    requires forall i :: 0 <= i < |published| ==> (published[i].namespace, published[i].tag) != k
    ensures var next := PersistFrom(u, cache, current, context, published).value;
            (k in next <==> k in cache) && (k in cache ==> next[k] == cache[k])
    decreases |published|
  {
    if published != [] {
      var k0 := (published[0].namespace, published[0].tag);
      LiveIn(u, current, k0);
      var live, original := LiveFor(u, current, k0).value, OriginalFor(context, k0).value;
      PersistUntouched(u, PersistOne(u, cache, live, original, published[0].entryHash).value, current, context, published[1..], k);
    }
  }

  /** After a successful save, for every card about to be published: whichever of the two entries
      a crash leaves in the catalog, the same original is restored from it. */
  lemma {:induction false} PersistedRestores(u: Rules, seen: iset<Entry>, cache: Cache, current: seq<Entry>, context: seq<Entry>,
                                             published: seq<Published>, nexts: seq<Entry>, i: nat)
    requires RulesOk(u) && CacheOk(u, seen, cache) && IsContext(u, cache, current, context)
    requires forall e :: e in current && e.source != ModelDerived ==> e in seen
    requires DistinctKeys(published) && PredictsAll(u, current, published, nexts) && i < |published|
    requires PersistFrom(u, cache, current, context, published).Some?
    ensures var k := (published[i].namespace, published[i].tag);
            var after := PersistFrom(u, cache, current, context, published).value;
            && LiveFor(u, current, k).Some? && OriginalFor(context, k).Some?
            && RestoreOne(u, after, LiveFor(u, current, k).value) == Restored(OriginalFor(context, k).value, false)
            && RestoreOne(u, after, nexts[i]) == Restored(OriginalFor(context, k).value, false)
    decreases |published|
  {
    var next := PersistStep(u, seen, cache, current, context, published, nexts);
    PredictsTail(u, current, published, nexts);
    if i == 0 {
      PersistUntouched(u, next, current, context, published[1..], (published[0].namespace, published[0].tag));
    } else {
      PersistedRestores(u, seen, next, current, context, published[1..], nexts[1..], i - 1);
    }
  }

  lemma {:induction false} PredictsTail(u: Rules, current: seq<Entry>, published: seq<Published>, nexts: seq<Entry>)
    requires DistinctKeys(published) && PredictsAll(u, current, published, nexts) && published != []
    ensures DistinctKeys(published[1..]) && PredictsAll(u, current, published[1..], nexts[1..])
    ensures forall i :: 0 <= i < |published[1..]| ==>
              published[1..][i].namespace != published[0].namespace || published[1..][i].tag != published[0].tag
  {
    assert forall j :: 0 <= j < |published[1..]| ==> published[1..][j] == published[j + 1];
  }

  /** One card of a save. */
  lemma {:induction false} PersistStep(u: Rules, seen: iset<Entry>, cache: Cache, current: seq<Entry>, context: seq<Entry>,
                                       published: seq<Published>, nexts: seq<Entry>) returns (next: Cache)
    requires RulesOk(u) && CacheOk(u, seen, cache) && IsContext(u, cache, current, context)
    requires forall e :: e in current && e.source != ModelDerived ==> e in seen
    requires PredictsAll(u, current, published, nexts) && published != []
    requires PersistFrom(u, cache, current, context, published).Some?
    ensures CacheOk(u, seen, next) && IsContext(u, next, current, context)
    ensures PersistFrom(u, cache, current, context, published) == PersistFrom(u, next, current, context, published[1..])
    ensures var k := (published[0].namespace, published[0].tag);
            && LiveFor(u, current, k).Some? && OriginalFor(context, k).Some?
            && KeyOf(LiveFor(u, current, k).value) == k && KeyOf(nexts[0]) == k
            && RestoreOne(u, next, LiveFor(u, current, k).value) == Restored(OriginalFor(context, k).value, false)
            && RestoreOne(u, next, nexts[0]) == Restored(OriginalFor(context, k).value, false)
  {
    var k := (published[0].namespace, published[0].tag);
    LiveIn(u, current, k);
    var live, original := LiveFor(u, current, k).value, OriginalFor(context, k).value;
    next := PersistOne(u, cache, live, original, published[0].entryHash).value;
    assert Replaces(live, nexts[0]);
    ItemHarmless(u, seen, cache, live, original, nexts[0]);
    PersistOneOk(u, seen, cache, live, original, published[0].entryHash);
    BothRestore(u, seen, cache, live, original, nexts[0]);
    ContextKept(u, cache, next, current, context, k, original, live);
  }

  lemma {:induction false} ItemHarmless(u: Rules, seen: iset<Entry>, cache: Cache, live: Entry, original: Entry, next: Entry)
    requires RulesOk(u) && CacheOk(u, seen, cache) && (live.source != ModelDerived ==> live in seen)
    requires original == RestoreOne(u, cache, live).entry && Replaces(live, next)
    ensures forall e: Entry :: u.entryHash(e) == u.entryHash(next) && e.source != ModelDerived ==> e == original
  {
    RestoredIsSource(u, seen, cache, live);
  }

  lemma {:induction false} ContextKept(u: Rules, cache: Cache, next: Cache, current: seq<Entry>, context: seq<Entry>,
                                       k: Key, original: Entry, live: Entry)
    requires IsContext(u, cache, current, context) && LiveFor(u, current, k) == Some(live) && OriginalFor(context, k) == Some(original)
    requires RestoreOne(u, next, live).entry == original
    requires forall j :: j != k ==> (j in next <==> j in cache) && (j in cache ==> next[j] == cache[j])
    ensures IsContext(u, next, current, context)
  {
    forall j | LiveFor(u, current, j).Some? && OriginalFor(context, j).Some?
      ensures OriginalFor(context, j).value == RestoreOne(u, next, LiveFor(u, current, j).value).entry
    {
      LiveIn(u, current, j);
    }
  }

  // ---------------------------------------------------------------- publication keeps the sources

  lemma {:induction false} LiveIsUnique(u: Rules, current: seq<Entry>, k: Key, j: nat)
    requires UniqueKeys(current) && j < |current| && KeyOf(current[j]) == k
    ensures LiveFor(u, current, k).Some? ==> LiveFor(u, current, k).value == current[j]
    ensures u.admits(current[j]) ==> LiveFor(u, current, k).Some?
    decreases |current|
  {
    var n := |current| - 1;
    LiveIn(u, current, k);
    if j < n {
      assert KeyOf(current[n]) != k;
      LiveIsUnique(u, current[..n], k, j);
    }
  }

  lemma {:induction false} RestoredIn(u: Rules, cache: Cache, cards: seq<Entry>, k: Key)
    ensures OriginalFor(RestoreAll(u, cache, cards), k).Some? ==>
              exists c :: c in cards && KeyOf(c) == k && OriginalFor(RestoreAll(u, cache, cards), k).value == RestoreOne(u, cache, c).entry
    decreases |cards|
  {
    if cards != [] {
      RestoredIn(u, cache, cards[1..], k);
      var r, rest := RestoreOne(u, cache, cards[0]), RestoreAll(u, cache, cards[1..]);
      assert KeyOf(r.entry) == KeyOf(cards[0]);
      var head := if u.admits(r.entry) then [r.entry] else [];
      if head == [] {
        assert head + rest == rest;
      } else {
        assert (head + rest)[1..] == rest;
      }
    }
  }

  lemma {:induction false} ContextOf(u: Rules, cache: Cache, current: seq<Entry>, cards: seq<Entry>)
    requires UniqueKeys(current) && forall c :: c in cards ==> c in current
    ensures IsContext(u, cache, current, RestoreAll(u, cache, cards))
  {
    var context := RestoreAll(u, cache, cards);
    forall k | LiveFor(u, current, k).Some? && OriginalFor(context, k).Some?
      ensures OriginalFor(context, k).value == RestoreOne(u, cache, LiveFor(u, current, k).value).entry
    {
      RestoredIn(u, cache, cards, k);
      var c :| c in cards && KeyOf(c) == k && OriginalFor(context, k).value == RestoreOne(u, cache, c).entry;
      var j :| 0 <= j < |current| && current[j] == c;
      LiveIsUnique(u, current, k, j);
    }
  }

  lemma {:induction false} KeptRestores(u: Rules, cache: Cache, current: seq<Entry>, context: seq<Entry>)
    requires IsContext(u, cache, current, context)
    ensures IsContext(u, KeepLive(u, cache, current), current, context)
  {
    forall k | LiveFor(u, current, k).Some? && OriginalFor(context, k).Some?
      ensures OriginalFor(context, k).value == RestoreOne(u, KeepLive(u, cache, current), LiveFor(u, current, k).value).entry
    {
      LiveIn(u, current, k);
    }
  }

  lemma {:induction false} PredictsAllOf(u: Rules, current: seq<Entry>, in_: Input, p: Proposal)
    requires UniqueKeys(current) && Merge(current, in_, p).Some?
    ensures NextEntries(current, in_.selected, in_, p).Some?
    ensures PredictsAll(u, current, Predict(u.entryHash, current, in_, p), NextEntries(current, in_.selected, in_, p).value)
  {
    PredictionHolds(u.entryHash, current, in_, p);
    PredictsNextEntries(u.entryHash, current, in_.selected, in_, p);
    var published, nexts := Predict(u.entryHash, current, in_, p), NextEntries(current, in_.selected, in_, p).value;
    forall i | 0 <= i < |published|
      ensures var live := LiveFor(u, current, (published[i].namespace, published[i].tag));
              live.Some? ==> Replaces(live.value, nexts[i])
    {
      var j := FindEntry(current, published[i].namespace, published[i].tag);
      LiveIsUnique(u, current, (published[i].namespace, published[i].tag), j);
    }
  }

  predicate DistinctCards(selected: seq<Entry>) {
    forall i, j :: 0 <= i < j < |selected| ==> !SameKey(selected[i], selected[j])
  }

  lemma {:induction false} DistinctPublished(entryHash: Entry -> Hash, current: seq<Entry>, in_: Input, p: Proposal)
    requires Merge(current, in_, p).Some? && DistinctCards(in_.selected)
    ensures DistinctKeys(Predict(entryHash, current, in_, p))
  {
    PredictionHolds(entryHash, current, in_, p);
    PredictsNextEntries(entryHash, current, in_.selected, in_, p);
  }

  /** Generated text never becomes source: once the originals were saved, every card restores to the
      same original from the generation before the publication and from the one after it, and that
      original is the one the worker started from. So it does not matter whether a crash let the
      pointer move. */
  lemma {:induction false} PublicationKeepsOriginals(u: Rules, seen: iset<Entry>, cache: Cache, current: seq<Entry>, cards: seq<Entry>,
                                                     in_: Input, p: Proposal, j: nat)
    requires RulesOk(u) && CacheOk(u, seen, cache) && UniqueKeys(current)
    requires forall e :: e in current && e.source != ModelDerived ==> e in seen
    requires (forall c :: c in cards ==> c in current) && DistinctCards(in_.selected)
    requires Merge(current, in_, p).Some? && j < |current| && u.admits(current[j])
    requires PersistFrom(u, KeepLive(u, cache, current), current, RestoreAll(u, cache, cards), Predict(u.entryHash, current, in_, p)).Some?
    ensures var after := PersistFrom(u, KeepLive(u, cache, current), current, RestoreAll(u, cache, cards),
                                     Predict(u.entryHash, current, in_, p)).value;
            var merged := Merge(current, in_, p).value;
            && |merged| == |current|
            && RestoreOne(u, after, merged[j]) == RestoreOne(u, after, current[j])
            && RestoreOne(u, after, current[j]).entry == RestoreOne(u, cache, current[j]).entry
            && (IsSelected(current[j], in_.selected) ==> !RestoreOne(u, after, merged[j]).blocked)
  {
    var kept, context := KeepLive(u, cache, current), RestoreAll(u, cache, cards);
    var published, merged := Predict(u.entryHash, current, in_, p), Merge(current, in_, p).value;
    ContextOf(u, cache, current, cards);
    KeptRestores(u, cache, current, context);
    PredictsAllOf(u, current, in_, p);
    DistinctPublished(u.entryHash, current, in_, p);
    MergeKeepsSources(current, in_, p);
    LiveIsUnique(u, current, KeyOf(current[j]), j);
    if IsSelected(current[j], in_.selected) {
      var i :| 0 <= i < |in_.selected| && SameKey(current[j], in_.selected[i]);
      PredictionHolds(u.entryHash, current, in_, p);
      PersistedRestores(u, seen, kept, current, context, published, NextEntries(current, in_.selected, in_, p).value, i);
      MergedIsNext(u, current, in_, p, i, j);
    } else {
      UnselectedRestores(u, cache, current, context, in_, p, j);
    }
  }

  lemma {:induction false} MergedIsNext(u: Rules, current: seq<Entry>, in_: Input, p: Proposal, i: nat, j: nat)
    requires RulesOk(u) && UniqueKeys(current) && Merge(current, in_, p).Some?
    requires i < |in_.selected| && j < |current| && SameKey(current[j], in_.selected[i])
    ensures NextEntries(current, in_.selected, in_, p).Some? && |NextEntries(current, in_.selected, in_, p).value| == |in_.selected|
    ensures |Merge(current, in_, p).value| == |current|
    ensures Merge(current, in_, p).value[j] == NextEntries(current, in_.selected, in_, p).value[i]
  {
    var merged, expected := Merge(current, in_, p).value, Predict(u.entryHash, current, in_, p);
    PredictionHolds(u.entryHash, current, in_, p);
    PredictsNextEntries(u.entryHash, current, in_.selected, in_, p);
    MergeKeepsSources(current, in_, p);
    assert forall m :: 0 <= m < |current| ==> SameSource(current[m], merged[m]);
    KeyIsUnique(current, expected[i].namespace, expected[i].tag, j);
    SameKeysSameIndex(merged, current, expected[i].namespace, expected[i].tag);
    assert MatchesOne(u.entryHash, merged, expected[i]);
  }

  lemma {:induction false} UnselectedRestores(u: Rules, cache: Cache, current: seq<Entry>, context: seq<Entry>, in_: Input, p: Proposal, j: nat)
    requires Merge(current, in_, p).Some? && j < |current| && !IsSelected(current[j], in_.selected)
    requires LiveFor(u, current, KeyOf(current[j])).Some?
    requires PersistFrom(u, KeepLive(u, cache, current), current, context, Predict(u.entryHash, current, in_, p)).Some?
    ensures var after := PersistFrom(u, KeepLive(u, cache, current), current, context, Predict(u.entryHash, current, in_, p)).value;
            RestoreOne(u, after, current[j]) == RestoreOne(u, cache, current[j])
  {
    var published := Predict(u.entryHash, current, in_, p);
    PredictionHolds(u.entryHash, current, in_, p);
    forall i | 0 <= i < |published|
      ensures (published[i].namespace, published[i].tag) != KeyOf(current[j])
    {
      assert HasKey(in_.selected[i], published[i].namespace, published[i].tag);
      assert !SameKey(current[j], in_.selected[i]);
    }
    PersistUntouched(u, KeepLive(u, cache, current), current, context, published, KeyOf(current[j]));
  }

  // ---------------------------------------------------------------- fingerprints

  /** What a fingerprint sees of a card: its identity, the client's declaration and evidence, and
      the description only when the client wrote it. */
  datatype SourceCard = SourceCard(
    namespace: string, tag: string, name: string, projectId: ProjectId, projectKey: string, owner: string,
    status: ReviewStatus, declared: string, evidence: seq<Evidence>, desc: Description)

  function SourceCardOf(e: Entry): SourceCard {
    SourceCard(e.namespace, e.tag, e.name, e.projectId, e.projectKey, e.owner, e.status, EffectiveDeclaredSource(e), e.evidence,
      if e.source == ClientDeclared then e.desc.(summary := "", evidenceRefs := []) else NO_DESCRIPTION)
  }

  datatype CardPolicy = CardPolicy(revision: nat, hold: bool, historicalOnly: bool)

  /** The fingerprint of a card among the cards of a run; the digest of it is collision free. */
  datatype Fingerprint = Fingerprint(card: SourceCard, context: seq<SourceCard>, policy: CardPolicy)

  function SourceCards(cards: seq<Entry>): seq<SourceCard> {
    if cards == [] then [] else [SourceCardOf(cards[0])] + SourceCards(cards[1..])
  }

  function FingerprintOf(card: Entry, cards: seq<Entry>, policy: CardPolicy): Fingerprint {
    Fingerprint(SourceCardOf(card), SourceCards(cards), policy)
  }

  function Pick(entries: seq<Entry>, indices: seq<nat>): (cards: seq<Entry>)
    requires forall i :: 0 <= i < |indices| ==> indices[i] < |entries|
    ensures |cards| == |indices| && forall i :: 0 <= i < |indices| ==> cards[i] == entries[indices[i]]
  {
    if indices == [] then [] else [entries[indices[0]]] + Pick(entries, indices[1..])
  }

  lemma {:induction false} RestoreSame(u: Rules, c: Cache, d: Cache, a: seq<Entry>, b: seq<Entry>)
    requires |a| == |b| && forall i :: 0 <= i < |a| ==> RestoreOne(u, c, a[i]).entry == RestoreOne(u, d, b[i]).entry
    ensures RestoreAll(u, c, a) == RestoreAll(u, d, b)
    decreases |a|
  {
    if a != [] {
      assert forall i :: 0 <= i < |a[1..]| ==> a[1..][i] == a[i + 1] && b[1..][i] == b[i + 1];
      RestoreSame(u, c, d, a[1..], b[1..]);
    }
  }

  /** The next run sees the same original cards as the run that published, so every fingerprint that
      was recorded is found again, as long as the policy of the card is the same: publication does
      not trigger itself. */
  lemma {:induction false} PublicationKeepsFingerprints(u: Rules, seen: iset<Entry>, cache: Cache, current: seq<Entry>,
                                                        indices: seq<nat>, in_: Input, p: Proposal, i: nat, policy: CardPolicy)
    requires RulesOk(u) && CacheOk(u, seen, cache) && UniqueKeys(current)
    requires forall e :: e in current && e.source != ModelDerived ==> e in seen
    requires forall k :: 0 <= k < |indices| ==> indices[k] < |current| && u.admits(current[indices[k]])
    requires DistinctCards(in_.selected) && Merge(current, in_, p).Some? && i < |indices|
    requires PersistFrom(u, KeepLive(u, cache, current), current, RestoreAll(u, cache, Pick(current, indices)),
                         Predict(u.entryHash, current, in_, p)).Some?
    ensures var after := PersistFrom(u, KeepLive(u, cache, current), current, RestoreAll(u, cache, Pick(current, indices)),
                                     Predict(u.entryHash, current, in_, p)).value;
            var merged := Merge(current, in_, p).value;
            && |merged| == |current|
            && RestoreAll(u, after, Pick(merged, indices)) == RestoreAll(u, cache, Pick(current, indices))
            && FingerprintOf(RestoreOne(u, after, merged[indices[i]]).entry, RestoreAll(u, after, Pick(merged, indices)), policy)
               == FingerprintOf(RestoreOne(u, cache, current[indices[i]]).entry, RestoreAll(u, cache, Pick(current, indices)), policy)
  {
    var cards := Pick(current, indices);
    var after := PersistFrom(u, KeepLive(u, cache, current), current, RestoreAll(u, cache, cards),
                             Predict(u.entryHash, current, in_, p)).value;
    var merged := Merge(current, in_, p).value;
    MergeKeepsSources(current, in_, p);
    forall k | 0 <= k < |indices|
      ensures RestoreOne(u, after, Pick(merged, indices)[k]).entry == RestoreOne(u, cache, cards[k]).entry
    {
      PublicationKeepsOriginals(u, seen, cache, current, cards, in_, p, indices[k]);
    }
    RestoreSame(u, after, cache, Pick(merged, indices), cards);
    assert Pick(merged, indices)[i] == merged[indices[i]];
  }

  /** The saved originals of any cards are the same on both sides of the publication. */
  lemma {:induction false} PublicationKeepsCards(u: Rules, seen: iset<Entry>, cache: Cache, current: seq<Entry>, cards: seq<Entry>,
                                                 chosen: seq<nat>, in_: Input, p: Proposal)
    requires RulesOk(u) && CacheOk(u, seen, cache) && UniqueKeys(current)
    requires forall e :: e in current && e.source != ModelDerived ==> e in seen
    requires (forall c :: c in cards ==> c in current) && DistinctCards(in_.selected) && Merge(current, in_, p).Some?
    requires forall k :: 0 <= k < |chosen| ==> chosen[k] < |current| && u.admits(current[chosen[k]])
    requires PersistFrom(u, KeepLive(u, cache, current), current, RestoreAll(u, cache, cards), Predict(u.entryHash, current, in_, p)).Some?
    ensures var after := PersistFrom(u, KeepLive(u, cache, current), current, RestoreAll(u, cache, cards),
                                     Predict(u.entryHash, current, in_, p)).value;
            var merged := Merge(current, in_, p).value;
            && |merged| == |current|
            && RestoreAll(u, after, Pick(merged, chosen)) == RestoreAll(u, cache, Pick(current, chosen))
            && RestoreAll(u, after, Pick(current, chosen)) == RestoreAll(u, cache, Pick(current, chosen))
  {
    var after := PersistFrom(u, KeepLive(u, cache, current), current, RestoreAll(u, cache, cards),
                             Predict(u.entryHash, current, in_, p)).value;
    var merged := Merge(current, in_, p).value;
    MergeKeepsSources(current, in_, p);
    forall k | 0 <= k < |chosen|
      ensures RestoreOne(u, after, merged[chosen[k]]).entry == RestoreOne(u, cache, current[chosen[k]]).entry
      ensures RestoreOne(u, after, current[chosen[k]]).entry == RestoreOne(u, cache, current[chosen[k]]).entry
    {
      PublicationKeepsOriginals(u, seen, cache, current, cards, in_, p, chosen[k]);
    }
    RestoreSame(u, after, cache, Pick(merged, chosen), Pick(current, chosen));
    RestoreSame(u, after, cache, Pick(current, chosen), Pick(current, chosen));
  }

  // ---------------------------------------------------------------- over whole runs

  /** The catalog's entries, the projection file, and the stored proposals. `seen` is history: every
      entry that the catalog ever held as client text. */
  datatype State = State(current: seq<Entry>, cache: Cache, artifacts: seq<Artifact>, seen: iset<Entry>)

  datatype Event =
    | CatalogBecomes(entries: seq<Entry>)
    | Refresh(saved: SaveResult)
    | Propose(cards: seq<Entry>, in_: Input, proposal: Proposal)
    | SaveOriginals(cards: seq<Entry>, artifact: nat, saved: SaveResult)

  ghost function StepOf(u: Rules, s: State, e: Event): State {
    match e
    case CatalogBecomes(entries) => s.(current := entries, seen := s.seen + iset x | x in entries && x.source != ModelDerived)
    case Refresh(saved) =>
      if saved == NotSaved then s
      else s.(cache := ImportAll(u, KeepLive(u, s.cache, s.current), s.current, s.artifacts))
    case Propose(cards, in_, p) =>
      if exists c :: c in cards && c !in s.current then s
      else s.(artifacts := s.artifacts + [Artifact(RestoreAll(u, s.cache, cards), Predict(u.entryHash, s.current, in_, p))])
    case SaveOriginals(cards, i, saved) =>
      var context := RestoreAll(u, s.cache, cards);
      if i >= |s.artifacts| || s.artifacts[i].originals != context || saved == NotSaved
         || (exists c :: c in cards && c !in s.current) then s
      else match PersistFrom(u, KeepLive(u, s.cache, s.current), s.current, context, s.artifacts[i].published)
        case None => s
        case Some(next) => s.(cache := next)
  }

  ghost function RunOf(u: Rules, s: State, events: seq<Event>): State
    decreases |events|
  {
    if events == [] then s else RunOf(u, StepOf(u, s, events[0]), events[1..])
  }

  /** A catalog generation never has two entries with the same key. */
  predicate ValidEvent(e: Event) {
    e.CatalogBecomes? ==> UniqueKeys(e.entries)
  }

  ghost predicate StateOk(u: Rules, s: State) {
    && UniqueKeys(s.current) && (forall e :: e in s.current && e.source != ModelDerived ==> e in s.seen)
    && CacheOk(u, s.seen, s.cache)
    && (forall i :: 0 <= i < |s.artifacts| ==> ArtifactOk(u, s.seen, s.artifacts[i]))
  }

  lemma {:induction false} MoreSeen(u: Rules, s: State, entries: seq<Entry>)
    requires StateOk(u, s) && UniqueKeys(entries)
    ensures StateOk(u, StepOf(u, s, CatalogBecomes(entries)))
  {
    var t := StepOf(u, s, CatalogBecomes(entries));
    forall k | k in t.cache
      ensures ProjectionOk(u, t.seen, k, t.cache[k])
    {
      assert ProjectionOk(u, s.seen, k, s.cache[k]);
    }
    forall i | 0 <= i < |t.artifacts|
      ensures ArtifactOk(u, t.seen, t.artifacts[i])
    {
      assert ArtifactOk(u, s.seen, s.artifacts[i]);
      forall j | 0 <= j < |t.artifacts[i].published|
        ensures ItemOk(u, t.seen, t.artifacts[i].originals, t.artifacts[i].published[j])
      {
        assert ItemOk(u, s.seen, s.artifacts[i].originals, s.artifacts[i].published[j]);
      }
    }
  }

  lemma {:induction false} RefreshOk(u: Rules, s: State, saved: SaveResult)
    requires RulesOk(u) && StateOk(u, s)
    ensures StateOk(u, StepOf(u, s, Refresh(saved)))
  {
    ImportAllOk(u, s.seen, KeepLive(u, s.cache, s.current), s.current, s.artifacts);
  }

  lemma {:induction false} ProposeOk(u: Rules, s: State, cards: seq<Entry>, in_: Input, p: Proposal)
    requires RulesOk(u) && StateOk(u, s)
    ensures StateOk(u, StepOf(u, s, Propose(cards, in_, p)))
  {
    var t := StepOf(u, s, Propose(cards, in_, p));
    if t != s {
      var a := t.artifacts[|s.artifacts|];
      NewArtifactOk(u, s, cards, in_, p);
      assert forall i :: 0 <= i < |s.artifacts| ==> t.artifacts[i] == s.artifacts[i];
    }
  }

  /** What a fresh proposal says about its cards is true: it stands only for client text that is in
      the catalog, or was when the cache recorded it. */
  lemma {:induction false} NewArtifactOk(u: Rules, s: State, cards: seq<Entry>, in_: Input, p: Proposal)
    requires RulesOk(u) && StateOk(u, s) && forall c :: c in cards ==> c in s.current
    ensures ArtifactOk(u, s.seen, Artifact(RestoreAll(u, s.cache, cards), Predict(u.entryHash, s.current, in_, p)))
  {
    var originals, published := RestoreAll(u, s.cache, cards), Predict(u.entryHash, s.current, in_, p);
    forall i | 0 <= i < |published|
      ensures ItemOk(u, s.seen, originals, published[i])
    {
      NewItemOk(u, s, cards, in_, p, i);
    }
  }

  lemma {:induction false} NewItemOk(u: Rules, s: State, cards: seq<Entry>, in_: Input, p: Proposal, i: nat)
    requires RulesOk(u) && StateOk(u, s) && forall c :: c in cards ==> c in s.current
    requires i < |Predict(u.entryHash, s.current, in_, p)|
    ensures ItemOk(u, s.seen, RestoreAll(u, s.cache, cards), Predict(u.entryHash, s.current, in_, p)[i])
  {
    var originals, x := RestoreAll(u, s.cache, cards), Predict(u.entryHash, s.current, in_, p)[i];
    var k := (x.namespace, x.tag);
    PredictsNextEntries(u.entryHash, s.current, in_.selected, in_, p);
    var live := s.current[FindEntry(s.current, k.0, k.1)];
    RestoredIn(u, s.cache, cards, k);
    if OriginalFor(originals, k).Some? {
      var c :| c in cards && KeyOf(c) == k && OriginalFor(originals, k).value == RestoreOne(u, s.cache, c).entry;
      var j :| 0 <= j < |s.current| && s.current[j] == c;
      KeyIsUnique(s.current, k.0, k.1, j);
      RestoredIsSource(u, s.seen, s.cache, live);
      NextIsDerived(u, s.current, in_, p, i, live);
    }
  }

  /** A predicted entry is the live one itself or a derived one. */
  lemma {:induction false} NextIsDerived(u: Rules, current: seq<Entry>, in_: Input, p: Proposal, i: nat, live: Entry)
    requires RulesOk(u) && i < |Predict(u.entryHash, current, in_, p)|
    requires var x := Predict(u.entryHash, current, in_, p)[i];
             var j := FindEntry(current, x.namespace, x.tag);
             j < |current| && live == current[j]
    ensures forall e: Entry :: u.entryHash(e) == Predict(u.entryHash, current, in_, p)[i].entryHash && e.source != ModelDerived ==>
              e == live
  {
    PredictsNextEntries(u.entryHash, current, in_.selected, in_, p);
  }

  lemma {:induction false} SaveOk(u: Rules, s: State, cards: seq<Entry>, i: nat, saved: SaveResult)
    requires RulesOk(u) && StateOk(u, s)
    ensures StateOk(u, StepOf(u, s, SaveOriginals(cards, i, saved)))
  {
    var t := StepOf(u, s, SaveOriginals(cards, i, saved));
    if t != s {
      var context, kept := RestoreAll(u, s.cache, cards), KeepLive(u, s.cache, s.current);
      ContextOf(u, s.cache, s.current, cards);
      KeptRestores(u, s.cache, s.current, context);
      assert ArtifactOk(u, s.seen, s.artifacts[i]);
      PersistFromOk(u, s.seen, kept, s.current, context, s.artifacts[i].published);
    }
  }

  lemma {:induction false} PersistFromOk(u: Rules, seen: iset<Entry>, cache: Cache, current: seq<Entry>, context: seq<Entry>, published: seq<Published>)
    requires RulesOk(u) && CacheOk(u, seen, cache) && IsContext(u, cache, current, context)
    requires forall e :: e in current && e.source != ModelDerived ==> e in seen
    requires forall i :: 0 <= i < |published| ==> ItemOk(u, seen, context, published[i])
    requires PersistFrom(u, cache, current, context, published).Some?
    ensures CacheOk(u, seen, PersistFrom(u, cache, current, context, published).value)
    decreases |published|
  {
    if published != [] {
      var k := (published[0].namespace, published[0].tag);
      LiveIn(u, current, k);
      var live, original := LiveFor(u, current, k).value, OriginalFor(context, k).value;
      var next := PersistOne(u, cache, live, original, published[0].entryHash).value;
      assert ItemOk(u, seen, context, published[0]);
      PersistOneOk(u, seen, cache, live, original, published[0].entryHash);
      ContextKept(u, cache, next, current, context, k, original, live);
      PersistFromOk(u, seen, next, current, context, published[1..]);
    }
  }

  lemma {:induction false} RunKeepsState(u: Rules, s: State, events: seq<Event>)
    requires RulesOk(u) && StateOk(u, s) && forall i :: 0 <= i < |events| ==> ValidEvent(events[i])
    ensures StateOk(u, RunOf(u, s, events))
    decreases |events|
  {
    if events != [] {
      match events[0] {
        case CatalogBecomes(entries) => assert ValidEvent(events[0]); MoreSeen(u, s, entries);
        case Refresh(saved) => RefreshOk(u, s, saved);
        case Propose(cards, in_, p) => ProposeOk(u, s, cards, in_, p);
        case SaveOriginals(cards, i, saved) => SaveOk(u, s, cards, i, saved);
      }
      assert forall i :: 0 <= i < |events[1..]| ==> events[1..][i] == events[i + 1];
      RunKeepsState(u, StepOf(u, s, events[0]), events[1..]);
    }
  }

  /** In every reachable state, whatever happened to the catalog, to the projection file and to the
      stored proposals: a card that is processed is processed from text that the catalog itself
      held as client text at some time, never from a generated description. */
  lemma {:induction false} GeneratedTextIsNeverSource(u: Rules, events: seq<Event>, live: Entry)
    requires RulesOk(u) && forall i :: 0 <= i < |events| ==> ValidEvent(events[i])
    requires live in RunOf(u, State([], map[], [], iset{}), events).current
    ensures var s := RunOf(u, State([], map[], [], iset{}), events);
            var r := RestoreOne(u, s.cache, live);
            && (!r.blocked ==> r.entry in s.seen && r.entry.source != ModelDerived)
            && (live.source != ModelDerived ==> r == Restored(live, false))
  {
    RunKeepsState(u, State([], map[], [], iset{}), events);
    var s := RunOf(u, State([], map[], [], iset{}), events);
    RestoredIsSource(u, s.seen, s.cache, live);
  }
}
