/** Exactly when an original is restored, saved or imported, and what a fingerprint sees. */
module MaintenanceOriginals {
  import opened Options
  import opened CatalogTypes
  import opened MaintenanceMerge
  import opened MaintenanceProjection

  // ---------------------------------------------------------------- restoring

  /** `live` is the original card, or was derived from it: identity and evidence are the same, and the
      declared summary is the original one or the text that was replaced. */
  predicate SameOrigin(original: Entry, live: Entry) {
    && live == original.(desc := live.desc, source := live.source, declaredSummary := live.declaredSummary)
    && live.source in {original.source, ModelDerived}
    && (live.declaredSummary == original.declaredSummary
        || (live.source == ModelDerived && original.declaredSummary == "" && live.declaredSummary == original.desc.summary))
  }

  /** The record of a card stands for the live entry: it has its digest, or the entry is a derived one that
      the version history contains. */
  predicate Proven(u: Rules, cache: Cache, live: Entry) {
    var k := (live.namespace, live.tag);
    k in cache && SameOrigin(cache[k].original, live)
    && (u.entryHash(live) in cache[k].liveHashes || (live.source == ModelDerived && u.history(live)))
  }

  lemma {:induction false} SameOriginMeans(original: Entry, live: Entry)
    ensures SameOrigin(original, live) <==> SameCatalogSourceIdentity(original, live)
  {
  }

  /** A proven card gives its original, other client text gives itself; a derived card that is not proven is
      blocked, and nothing of its description is passed on but the declared summary. */
  lemma {:induction false} RestoredIff(u: Rules, cache: Cache, live: Entry)
    ensures var r := RestoreOne(u, cache, live);
            && (r.blocked <==> live.source == ModelDerived && !Proven(u, cache, live))
            && (Proven(u, cache, live) ==> r.entry == cache[(live.namespace, live.tag)].original)
            && (!Proven(u, cache, live) && !r.blocked ==> r.entry == live)
            && (r.blocked ==> r.entry == live.(desc := Description(live.declaredSummary, [], [], [], [], [], [], [], live.desc.evidenceRefs)))
  {
    if KeyOf(live) in cache {
      SameOriginMeans(cache[KeyOf(live)].original, live);
    }
  }

  /** Exactly the admitted originals are passed on, and exactly the other cards and the blocked ones are
      reported. */
  lemma {:induction false} PassedOnIff(u: Rules, cache: Cache, cards: seq<Entry>)
    ensures forall e :: e in RestoreAll(u, cache, cards) <==>
              u.admits(e) && exists i :: 0 <= i < |cards| && RestoreOne(u, cache, cards[i]).entry == e
    ensures forall k :: k in Blocked(u, cache, cards) <==>
              exists i :: 0 <= i < |cards| && KeyOf(cards[i]) == k
                          && !(u.admits(RestoreOne(u, cache, cards[i]).entry) && !RestoreOne(u, cache, cards[i]).blocked)
    ensures |RestoreAll(u, cache, cards)| <= |cards|
    decreases |cards|
  {
    if cards != [] {
      PassedOnIff(u, cache, cards[1..]);
      assert forall i :: 1 <= i < |cards| ==> cards[i] == cards[1..][i - 1];
      var r := RestoreOne(u, cache, cards[0]);
      var rest := RestoreAll(u, cache, cards[1..]);
      assert forall e :: e in RestoreAll(u, cache, cards) <==> (e == r.entry && u.admits(e)) || e in rest;
      assert forall c :: c in cards <==> exists i :: 0 <= i < |cards| && cards[i] == c;
    }
  }

  /** The records that survive are those of cards that are still live and admitted. */
  lemma {:induction false} KeptIff(u: Rules, cache: Cache, current: seq<Entry>, k: Key)
    ensures k in KeepLive(u, cache, current) <==>
              k in cache && exists i :: 0 <= i < |current| && KeyOf(current[i]) == k && u.admits(current[i])
    ensures k in KeepLive(u, cache, current) ==> KeepLive(u, cache, current)[k] == cache[k]
  {
    LiveIff(u, current, k);
  }

  lemma {:induction false} LiveIff(u: Rules, current: seq<Entry>, k: Key)
    ensures LiveFor(u, current, k).Some? <==> exists i :: 0 <= i < |current| && KeyOf(current[i]) == k && u.admits(current[i])
    decreases |current|
  {
    if current != [] {
      var n := |current| - 1;
      LiveIff(u, current[..n], k);
      assert forall i :: 0 <= i < n ==> current[..n][i] == current[i];
    }
  }

  // ---------------------------------------------------------------- saving before a publication

  function KeyFor(x: Published): Key {
    (x.namespace, x.tag)
  }

  /** The card is live and admitted, its original is among those of the run, and it is not blocked. */
  ghost predicate CanSave(u: Rules, cache: Cache, current: seq<Entry>, context: seq<Entry>, x: Published) {
    && LiveFor(u, current, KeyFor(x)).Some? && OriginalFor(context, KeyFor(x)).Some?
    && !RestoreOne(u, cache, LiveFor(u, current, KeyFor(x)).value).blocked
  }

  /** `next` has, for the item, its original with the digests of the live entry and of the new one. */
  ghost predicate SavedItem(u: Rules, current: seq<Entry>, context: seq<Entry>, x: Published, next: Cache) {
    && LiveFor(u, current, KeyFor(x)).Some? && OriginalFor(context, KeyFor(x)).Some?
    && var h := u.entryHash(LiveFor(u, current, KeyFor(x)).value);
       KeyFor(x) in next
       && next[KeyFor(x)] == Projection(OriginalFor(context, KeyFor(x)).value, if x.entryHash == h then [h] else [h, x.entryHash])
  }

  /** The records of the items that are still to be saved are as they were. */
  ghost predicate SameRecords(start: Cache, cache: Cache, published: seq<Published>) {
    forall i :: 0 <= i < |published| ==>
      (KeyFor(published[i]) in cache <==> KeyFor(published[i]) in start)
      && (KeyFor(published[i]) in start ==> cache[KeyFor(published[i])] == start[KeyFor(published[i])])
  }

  lemma {:induction false} OneSaved(u: Rules, seen: iset<Entry>, start: Cache, cache: Cache, current: seq<Entry>, context: seq<Entry>, x: Published)
    requires RulesOk(u) && CacheOk(u, seen, start) && IsContext(u, start, current, context) && SameRecords(start, cache, [x])
    requires LiveFor(u, current, KeyFor(x)).Some? && OriginalFor(context, KeyFor(x)).Some?
    ensures var live, original := LiveFor(u, current, KeyFor(x)).value, OriginalFor(context, KeyFor(x)).value;
            var next := PersistOne(u, cache, live, original, x.entryHash);
            && (CanSave(u, start, current, context, x) <==> original.source != ModelDerived && next.Some?)
            && (next.Some? ==> SavedItem(u, current, context, x, next.value) && next.value == cache[KeyFor(x) := next.value[KeyFor(x)]])
  {
    LiveIn(u, current, KeyFor(x));
    var live := LiveFor(u, current, KeyFor(x)).value;
    assert [x][0] == x;
    if KeyFor(x) in start {
      assert ProjectionOk(u, seen, KeyFor(x), start[KeyFor(x)]);
    }
  }

  ghost predicate AllSavable(u: Rules, cache: Cache, current: seq<Entry>, context: seq<Entry>, published: seq<Published>) {
    forall i :: 0 <= i < |published| ==> CanSave(u, cache, current, context, published[i])
  }

  ghost predicate AllSaved(u: Rules, current: seq<Entry>, context: seq<Entry>, published: seq<Published>, next: Cache) {
    forall i :: 0 <= i < |published| ==> SavedItem(u, current, context, published[i], next)
  }

  /** The first item of a list, and the others. */
  lemma {:induction false} FirstAndRest(u: Rules, start: Cache, cache: Cache, current: seq<Entry>, context: seq<Entry>,
                                        published: seq<Published>, next: Cache)
    requires published != [] && DistinctKeys(published)
    ensures AllSavable(u, start, current, context, published)
            <==> CanSave(u, start, current, context, published[0]) && AllSavable(u, start, current, context, published[1..])
    ensures AllSaved(u, current, context, published, next)
            <==> SavedItem(u, current, context, published[0], next) && AllSaved(u, current, context, published[1..], next)
    ensures SameRecords(start, cache, published) ==> SameRecords(start, cache, [published[0]]) && SameRecords(start, cache, published[1..])
    ensures DistinctKeys(published[1..])
    ensures forall i :: 0 <= i < |published[1..]| ==> KeyFor(published[1..][i]) != KeyFor(published[0])
  {
    assert forall i :: 1 <= i < |published| ==> published[i] == published[1..][i - 1];
  }

  lemma {:induction false} OtherRecords(start: Cache, cache: Cache, k: Key, r: Projection, rest: seq<Published>)
    requires SameRecords(start, cache, rest) && forall i :: 0 <= i < |rest| ==> KeyFor(rest[i]) != k
    ensures SameRecords(start, cache[k := r], rest)
  {
  }

  /** The originals of a run can be saved exactly when every card about to be published is live and admitted,
      has an original in the run, and is not blocked. */
  lemma {:induction false} PersistsIff(u: Rules, seen: iset<Entry>, start: Cache, cache: Cache, current: seq<Entry>, context: seq<Entry>,
                                       published: seq<Published>)
    requires RulesOk(u) && CacheOk(u, seen, start) && IsContext(u, start, current, context)
    requires DistinctKeys(published) && SameRecords(start, cache, published)
    ensures PersistFrom(u, cache, current, context, published).Some? <==> AllSavable(u, start, current, context, published)
    ensures PersistFrom(u, cache, current, context, published).Some? ==>
              AllSaved(u, current, context, published, PersistFrom(u, cache, current, context, published).value)
    decreases |published|
  {
    if published != [] {
      var x, rest, k := published[0], published[1..], KeyFor(published[0]);
      FirstAndRest(u, start, cache, current, context, published, cache);
      if LiveFor(u, current, k).Some? && OriginalFor(context, k).Some? {
        OneSaved(u, seen, start, cache, current, context, x);
        var next := PersistOne(u, cache, LiveFor(u, current, k).value, OriginalFor(context, k).value, x.entryHash);
        if CanSave(u, start, current, context, x) {
          OtherRecords(start, cache, k, next.value[k], rest);
          PersistsIff(u, seen, start, next.value, current, context, rest);
          if PersistFrom(u, next.value, current, context, rest).Some? {
            PersistUntouched(u, next.value, current, context, rest, k);
            FirstAndRest(u, start, cache, current, context, published, PersistFrom(u, next.value, current, context, rest).value);
          }
        }
      }
    }
  }

  // ---------------------------------------------------------------- importing what proposals prove

  /** An item of a stored proposal whose originals are all client text says that the live card was published
      from `original`. */
  ghost predicate Proves(u: Rules, live: Entry, originals: seq<Entry>, item: Published, original: Entry) {
    && (forall i :: 0 <= i < |originals| ==> originals[i].source != ModelDerived)
    && KeyFor(item) == KeyOf(live) && item.entryHash == u.entryHash(live)
    && OriginalFor(originals, KeyFor(item)) == Some(original) && SameOrigin(original, live) && u.registered(original)
  }

  ghost predicate ItemsProve(u: Rules, live: Entry, originals: seq<Entry>, items: seq<Published>, original: Entry) {
    exists i :: 0 <= i < |items| && Proves(u, live, originals, items[i], original)
  }

  ghost predicate ArtifactsProve(u: Rules, live: Entry, artifacts: seq<Artifact>, original: Entry) {
    exists i :: 0 <= i < |artifacts| && ItemsProve(u, live, artifacts[i].originals, artifacts[i].published, original)
  }

  /** The cache has a record for the card with the digest of the live entry. */
  predicate Recorded(u: Rules, cache: Cache, live: Entry) {
    KeyOf(live) in cache && u.entryHash(live) in cache[KeyOf(live)].liveHashes
  }

  /** What importing changes for one card: its record comes to cover the live entry if something proves that
      it was published from the recorded original, or from any if there was no record; an original that is
      recorded is never replaced. */
  ghost predicate Imported(u: Rules, cache: Cache, next: Cache, live: Entry, proves: Entry -> bool) {
    var k := KeyOf(live);
    && (k in cache ==> k in next && next[k].original == cache[k].original)
    && (k in cache ==> (Recorded(u, next, live) <==> Recorded(u, cache, live) || proves(cache[k].original)))
    && (k !in cache ==> (k in next <==> exists original :: proves(original)))
    && (k !in cache && k in next ==> proves(next[k].original) && Recorded(u, next, live))
  }

  ghost function ItemProves(u: Rules, live: Entry, originals: seq<Entry>, item: Published): Entry -> bool {
    (original: Entry) => Proves(u, live, originals, item, original)
  }

  ghost function SomeItemProves(u: Rules, live: Entry, originals: seq<Entry>, items: seq<Published>): Entry -> bool {
    (original: Entry) => ItemsProve(u, live, originals, items, original)
  }

  ghost function SomeProposalProves(u: Rules, live: Entry, artifacts: seq<Artifact>): Entry -> bool {
    (original: Entry) => ArtifactsProve(u, live, artifacts, original)
  }

  lemma {:induction false} ImportOneIff(u: Rules, cache: Cache, current: seq<Entry>, originals: seq<Entry>, item: Published, live: Entry)
    requires LiveFor(u, current, KeyOf(live)) == Some(live) && !HasDerived(originals)
    ensures Imported(u, cache, ImportOne(u, cache, current, originals, item), live, ItemProves(u, live, originals, item))
  {
    var next := ImportOne(u, cache, current, originals, item);
    var proves := ItemProves(u, live, originals, item);
    if KeyFor(item) == KeyOf(live) && OriginalFor(originals, KeyFor(item)).Some? {
      var original := OriginalFor(originals, KeyFor(item)).value;
      SameOriginMeans(original, live);
      assert proves(original) <==> Proves(u, live, originals, item, original);
      if KeyOf(live) in cache {
        var hashes := cache[KeyOf(live)].liveHashes + [item.entryHash];
        assert LastTwo(hashes)[|LastTwo(hashes)| - 1] == item.entryHash;
      }
    }
  }

  /** One step of an import after another. */
  lemma {:induction false} ImportedMore(u: Rules, cache: Cache, mid: Cache, next: Cache, live: Entry,
                                        first: Entry -> bool, rest: Entry -> bool, all: Entry -> bool)
    requires Imported(u, cache, mid, live, first) && Imported(u, mid, next, live, rest)
    requires forall original :: all(original) <==> first(original) || rest(original)
    ensures Imported(u, cache, next, live, all)
  {
    var k := KeyOf(live);
    if k !in cache && k in mid {
      assert all(mid[k].original);
    }
  }

  lemma {:induction false} ImportItemsIff(u: Rules, cache: Cache, current: seq<Entry>, originals: seq<Entry>, items: seq<Published>, live: Entry)
    requires LiveFor(u, current, KeyOf(live)) == Some(live) && !HasDerived(originals)
    ensures Imported(u, cache, ImportItems(u, cache, current, originals, items), live, SomeItemProves(u, live, originals, items))
    decreases |items|
  {
    if items != [] {
      var mid := ImportOne(u, cache, current, originals, items[0]);
      ImportOneIff(u, cache, current, originals, items[0], live);
      ImportItemsIff(u, mid, current, originals, items[1..], live);
      forall original: Entry
        ensures SomeItemProves(u, live, originals, items)(original)
                <==> ItemProves(u, live, originals, items[0])(original) || SomeItemProves(u, live, originals, items[1..])(original)
      {
        assert forall i :: 1 <= i < |items| ==> items[i] == items[1..][i - 1];
      }
      ImportedMore(u, cache, mid, ImportItems(u, cache, current, originals, items), live, ItemProves(u, live, originals, items[0]),
                   SomeItemProves(u, live, originals, items[1..]), SomeItemProves(u, live, originals, items));
    }
  }

  /** After an import a live card is covered by its record exactly when it was, or when a stored proposal
      without derived originals proves that it was published from the recorded original, or from any original
      if there was no record. */
  lemma {:induction false} ImportIff(u: Rules, cache: Cache, current: seq<Entry>, artifacts: seq<Artifact>, live: Entry)
    requires LiveFor(u, current, KeyOf(live)) == Some(live)
    ensures Imported(u, cache, ImportAll(u, cache, current, artifacts), live, SomeProposalProves(u, live, artifacts))
    decreases |artifacts|
  {
    if artifacts != [] {
      var a := artifacts[0];
      var first := SomeItemProves(u, live, a.originals, a.published);
      var mid := if HasDerived(a.originals) then cache else ImportItems(u, cache, current, a.originals, a.published);
      if !HasDerived(a.originals) {
        ImportItemsIff(u, cache, current, a.originals, a.published, live);
      } else {
        assert forall original :: !first(original);
      }
      ImportIff(u, mid, current, artifacts[1..], live);
      forall original: Entry
        ensures SomeProposalProves(u, live, artifacts)(original) <==> first(original) || SomeProposalProves(u, live, artifacts[1..])(original)
      {
        assert forall i :: 1 <= i < |artifacts| ==> artifacts[i] == artifacts[1..][i - 1];
      }
      ImportedMore(u, cache, mid, ImportAll(u, cache, current, artifacts), live, first, SomeProposalProves(u, live, artifacts[1..]),
                   SomeProposalProves(u, live, artifacts));
    }
  }

  // ---------------------------------------------------------------- fingerprints

  /** The client has said the same about two cards: the same identity, declared summary and evidence, and the
      same description, as far as the client wrote it. */
  predicate SameSaying(a: Entry, b: Entry) {
    && a.namespace == b.namespace && a.tag == b.tag && a.name == b.name && a.projectId == b.projectId
    && a.projectKey == b.projectKey && a.owner == b.owner && a.status == b.status && a.evidence == b.evidence
    && EffectiveDeclaredSource(a) == EffectiveDeclaredSource(b)
    && SaidAbout(a) == SaidAbout(b)
  }

  /** The lists of a description that the client wrote. */
  function SaidAbout(e: Entry): Description {
    if e.source == ClientDeclared then e.desc.(summary := "", evidenceRefs := []) else Description("", [], [], [], [], [], [], [], [])
  }

  lemma {:induction false} SourceCardIff(a: Entry, b: Entry)
    ensures SourceCardOf(a) == SourceCardOf(b) <==> SameSaying(a, b)
  {
  }

  lemma {:induction false} SourceCardsIff(a: seq<Entry>, b: seq<Entry>)
    ensures SourceCards(a) == SourceCards(b) <==> |a| == |b| && forall i :: 0 <= i < |a| ==> SameSaying(a[i], b[i])
    decreases |a|
  {
    if a != [] && b != [] {
      SourceCardIff(a[0], b[0]);
      SourceCardsIff(a[1..], b[1..]);
      assert forall i :: 1 <= i < |a| ==> a[i] == a[1..][i - 1];
      assert forall i :: 1 <= i < |b| ==> b[i] == b[1..][i - 1];
      assert SourceCards(a) == SourceCards(b) <==> SourceCardOf(a[0]) == SourceCardOf(b[0]) && SourceCards(a[1..]) == SourceCards(b[1..]) by {
        assert SourceCards(a)[1..] == SourceCards(a[1..]) && SourceCards(b)[1..] == SourceCards(b[1..]);
      }
    }
  }

  /** Two fingerprints are the same exactly when the client has said the same about the card and about every
      card of its run, and the policy is the same. So a card is looked at again whenever one of these has
      changed, and text that a model wrote does not matter. */
  lemma {:induction false} FingerprintIff(a: Entry, b: Entry, cardsA: seq<Entry>, cardsB: seq<Entry>, p: CardPolicy, q: CardPolicy)
    ensures FingerprintOf(a, cardsA, p) == FingerprintOf(b, cardsB, q) <==>
              && SameSaying(a, b) && p == q
              && |cardsA| == |cardsB| && forall i :: 0 <= i < |cardsA| ==> SameSaying(cardsA[i], cardsB[i])
  {
    SourceCardIff(a, b);
    SourceCardsIff(cardsA, cardsB);
  }
}
