/** Listing the versions of one project, page by page, while the catalog may move on. */
module CatalogVersions {
  import opened Options
  import opened CatalogTypes
  import opened CatalogJournal
  import opened CatalogInvariant
  import opened CatalogSteps
  import opened CatalogTheorems

  const MAX_VERSION_PAGE := 100

  /** One described generation. `operation` is the journal record that installed it, when known. */
  datatype Version = Version(
    hash: Hash, parent: Hash, version: string, createdAt: string, entryHash: Hash,
    diff: seq<string>, operation: Option<Record>)

  datatype PageResult = PageFailed(error: Error) | PageIs(versions: seq<Version>, next: Hash)

  function When(b: bool, name: string): seq<string> {
    if b then [name] else []
  }

  /** The description fields in which two entries differ, in a fixed order. */
  function EntryDiff(a: Description, b: Description): seq<string> {
    When(a.summary != b.summary, "summary")
    + When(a.aliases != b.aliases, "aliases")
    + When(a.ownedComponents != b.ownedComponents, "owned_components")
    + When(a.boundaries != b.boundaries, "boundaries")
    + When(a.uses != b.uses, "uses")
    + When(a.sharedWith != b.sharedWith, "shared_with")
    + When(a.positiveExamples != b.positiveExamples, "positive_examples")
    + When(a.negativeExamples != b.negativeExamples, "negative_examples")
    + When(a.evidenceRefs != b.evidenceRefs, "evidence_refs")
  }

  lemma {:induction false} NoDiffIffSameDescription(a: Description, b: Description)
    ensures EntryDiff(a, b) == [] <==> a == b
  {
  }

  /** A field is named exactly when the two descriptions differ in it, and no other name occurs. */
  lemma {:induction false} DiffNamesFields(a: Description, b: Description, name: string)
    ensures name in EntryDiff(a, b) <==>
              || (name == "summary" && a.summary != b.summary)
              || (name == "aliases" && a.aliases != b.aliases)
              || (name == "owned_components" && a.ownedComponents != b.ownedComponents)
              || (name == "boundaries" && a.boundaries != b.boundaries)
              || (name == "uses" && a.uses != b.uses)
              || (name == "shared_with" && a.sharedWith != b.sharedWith)
              || (name == "positive_examples" && a.positiveExamples != b.positiveExamples)
              || (name == "negative_examples" && a.negativeExamples != b.negativeExamples)
              || (name == "evidence_refs" && a.evidenceRefs != b.evidenceRefs)
  {
  }

  predicate InstallsFor(r: Record, h: Hash, id: ProjectId) {
    && PointerKind(r.kind) && r.status == Applied && r.result == h && r.target == h
    && exists c :: c in r.changes && c.projectId == id
  }

  /** The first receipt in directory order that names `h` as its result and mentions the project. */
  ghost function FindApplied(d: Disk, ids: seq<OpId>, h: Hash, id: ProjectId): Option<Record>
    decreases |ids|
  {
    if ids == [] then None
    else match LoadOperation(d, ids[0])
      case LookupIs(r) => if InstallsFor(r, h, id) then Some(r) else FindApplied(d, ids[1..], h, id)
      case _ => FindApplied(d, ids[1..], h, id)
  }

  /** How a generation describes the project, compared with its parent; nothing when the project
      is missing or its description did not change. */
  ghost function Describe(env: Env, d: Disk, h: Hash, id: ProjectId): Option<(Snapshot, Entry, seq<string>)> {
    match Load(env, d, h)
    case None => None
    case Some(s) =>
      var i := EntryIndex(s.entries, id);
      if i < 0 then None else
      var e := s.entries[i];
      var diff := match Load(env, d, s.parent)
        case Some(p) =>
          var j := EntryIndex(p.entries, id);
          if j < 0 then ["created"] else EntryDiff(p.entries[j].desc, e.desc)
        case None => if s.parent == "" then ["created"] else [];
      if diff == [] then None else Some((s, e, diff))
  }

  ghost function VersionAt(env: Env, d: Disk, h: Hash, id: ProjectId): Option<Version> {
    match Describe(env, d, h, id)
    case None => None
    case Some((s, e, diff)) =>
      Some(Version(h, s.parent, s.version, s.createdAt, env.entryHash(e), diff,
                   FindApplied(d, env.listing(d.receipts.Keys), h, id)))
  }

  ghost function Collect(f: Hash -> Option<Version>, hashes: seq<Hash>): seq<Version>
    decreases |hashes|
  {
    if hashes == [] then []
    else (match f(hashes[0]) case None => [] case Some(x) => [x]) + Collect(f, hashes[1..])
  }

  lemma {:induction false} CollectLast(f: Hash -> Option<Version>, hashes: seq<Hash>, h: Hash)
    ensures Collect(f, hashes + [h]) == Collect(f, hashes) + (match f(h) case None => [] case Some(x) => [x])
    decreases |hashes|
  {
    var all := hashes + [h];
    if hashes == [] {
      assert all == [h] && all[1..] == [];
      assert Collect(f, all[1..]) == [];
    } else {
      assert (hashes + [h])[0] == hashes[0] && (hashes + [h])[1..] == hashes[1..] + [h];
      CollectLast(f, hashes[1..], h);
    }
  }

  ghost function VersionOf(env: Env, d: Disk, id: ProjectId): Hash -> Option<Version> {
    (h: Hash) => VersionAt(env, d, h, id)
  }

  ghost function Versions(env: Env, d: Disk, hashes: seq<Hash>, id: ProjectId): seq<Version> {
    Collect(VersionOf(env, d, id), hashes)
  }

  function IndexOf(hashes: seq<Hash>, h: Hash): (i: nat)
    ensures i <= |hashes| && (i < |hashes| ==> hashes[i] == h) && h !in hashes[..i]
  {
    if hashes == [] || hashes[0] == h then 0 else 1 + IndexOf(hashes[1..], h)
  }

  function Min(a: nat, b: nat): nat { if a < b then a else b }

  /** One page, on a catalog that has just been recovered. */
  ghost function PageOf(env: Env, d: Disk, id: ProjectId, cursor: Hash, limit: int): PageResult {
    if limit < 1 || limit > MAX_VERSION_PAGE || id == "" then PageFailed(InvalidInput)
    else match LoadActive(env, d)
      case ActiveAbsent => PageFailed(NotFound)
      case ActiveBroken => PageFailed(Unreadable)
      case ActiveIs(_, active) =>
        match Walk(env, d, active, [])
        case None => PageFailed(Unreadable)
        case Some(hashes) =>
          PageFrom(env, d, hashes, id, cursor, limit)
  }

  /** The page that starts right behind `cursor` in `hashes`. */
  ghost function PageFrom(env: Env, d: Disk, hashes: seq<Hash>, id: ProjectId, cursor: Hash, limit: int): PageResult
    requires limit >= 1
  {
    var at := IndexOf(hashes, cursor);
    if cursor != "" && at == |hashes| then PageFailed(InvalidInput) else
    var start := if cursor == "" then 0 else at + 1;
    var end := Min(start + limit, |hashes|);
    PageIs(Versions(env, d, hashes[start..end], id), if end < |hashes| then hashes[end - 1] else "")
  }

  // ---------------------------------------------------------------- one page

  lemma {:induction false} IndexOfUnique(hashes: seq<Hash>, k: nat)
    requires k < |hashes| && forall i, j :: 0 <= i < j < |hashes| ==> hashes[i] != hashes[j]
    ensures IndexOf(hashes, hashes[k]) == k
  {
    if k > 0 {
      IndexOfUnique(hashes[1..], k - 1);
    }
  }

  /** The position in the history of `v` that a cursor points just behind. */
  ghost predicate CursorAt(v: World, cursor: Hash, n: nat) {
    n <= |v.moves| && (if n == 0 then cursor == "" else cursor == History(v.moves)[n - 1])
  }

  lemma {:induction false} HistoryNotEmpty(env: Env, v: World)
    requires EnvOk(env) && Sound(env, v)
    ensures |History(v.moves)| == |v.moves| && forall k :: 0 <= k < |v.moves| ==> History(v.moves)[k] != ""
  {
    HistoryAt(v.moves);
    forall k | 0 <= k < |v.moves|
      ensures History(v.moves)[k] != ""
    {
      assert MoveOk(v, |v.moves| - 1 - k);
      assert env.hash(v.disk.snapshots[History(v.moves)[k]]) == History(v.moves)[k];
    }
  }

  /** The page behind the n-th of the given generations. */
  ghost predicate IsPage(env: Env, d: Disk, hashes: seq<Hash>, id: ProjectId, n: nat, limit: int, page: PageResult)
    requires n <= |hashes| && limit >= 1
  {
    var end := Min(n + limit, |hashes|);
    && page == PageIs(Versions(env, d, hashes[n..end], id), if end < |hashes| then hashes[end - 1] else "")
    && (end < |hashes| ==> page.next != "")
  }

  lemma {:induction false} SliceAt(env: Env, d: Disk, hashes: seq<Hash>, id: ProjectId, n: nat, limit: int)
    requires n <= |hashes| && limit >= 1
    requires forall i, j :: 0 <= i < j < |hashes| ==> hashes[i] != hashes[j]
    requires forall i :: 0 <= i < |hashes| ==> hashes[i] != ""
    ensures IsPage(env, d, hashes, id, n, limit, PageFrom(env, d, hashes, id, if n == 0 then "" else hashes[n - 1], limit))
  {
    if n > 0 {
      IndexOfUnique(hashes, n - 1);
    }
  }

  /** A page behind the n-th newest generation holds the next `limit` ones, and hands out the
      cursor of its last one exactly when older ones remain. */
  lemma {:induction false} PageIsSlice(env: Env, v: World, id: ProjectId, cursor: Hash, n: nat, limit: int)
    requires EnvOk(env) && Sound(env, v) && v.moves != [] && 1 <= limit <= MAX_VERSION_PAGE && id != ""
    requires CursorAt(v, cursor, n)
    ensures IsPage(env, v.disk, History(v.moves), id, n, limit, PageOf(env, v.disk, id, cursor, limit))
  {
    PageReadsHistory(env, v, id, cursor, limit);
    HistoryDistinct(v);
    HistoryNotEmpty(env, v);
    SliceAt(env, v.disk, History(v.moves), id, n, limit);
  }

  lemma {:induction false} PageReadsHistory(env: Env, v: World, id: ProjectId, cursor: Hash, limit: int)
    requires EnvOk(env) && Sound(env, v) && v.moves != [] && 1 <= limit <= MAX_VERSION_PAGE && id != ""
    ensures PageOf(env, v.disk, id, cursor, limit) == PageFrom(env, v.disk, History(v.moves), id, cursor, limit)
  {
    WalkIsHistory(env, v);
    var last := |v.moves| - 1;
    assert MoveOk(v, last);
    assert env.hash(v.disk.snapshots[v.disk.active]) == v.disk.active;
    ActiveIsStored(env, v);
  }

  // ---------------------------------------------------------------- a whole listing

  /** Reading page after page, each from the catalog as it is at that moment, until no cursor is
      handed out or the given states run out. Provenance is left out: it is read from receipts. */
  ghost function Listed(env: Env, states: seq<World>, id: ProjectId, cursor: Hash, limit: int): seq<Hash>
    decreases |states|
  {
    if states == [] then []
    else match PageOf(env, states[0].disk, id, cursor, limit)
      case PageFailed(_) => []
      case PageIs(versions, next) =>
        Hashes(versions) + if next == "" then [] else Listed(env, states[1..], id, next, limit)
  }

  function Hashes(versions: seq<Version>): (hs: seq<Hash>)
    ensures |hs| == |versions|
  {
    if versions == [] then [] else [versions[0].hash] + Hashes(versions[1..])
  }

  ghost function Filter(keep: Hash -> bool, hashes: seq<Hash>): seq<Hash>
    decreases |hashes|
  {
    if hashes == [] then []
    else (if keep(hashes[0]) then [hashes[0]] else []) + Filter(keep, hashes[1..])
  }

  ghost function Keeps(env: Env, d: Disk, id: ProjectId): Hash -> bool {
    (h: Hash) => Describe(env, d, h, id).Some?
  }

  /** The generations in which the project exists with a changed description. */
  ghost function Described(env: Env, d: Disk, hashes: seq<Hash>, id: ProjectId): seq<Hash> {
    Filter(Keeps(env, d, id), hashes)
  }

  lemma {:induction false} CollectedAreKept(f: Hash -> Option<Version>, keep: Hash -> bool, hashes: seq<Hash>)
    requires forall h :: f(h).Some? <==> keep(h)
    requires forall h :: f(h).Some? ==> f(h).value.hash == h
    ensures Hashes(Collect(f, hashes)) == Filter(keep, hashes)
    decreases |hashes|
  {
    if hashes != [] {
      CollectedAreKept(f, keep, hashes[1..]);
      var tail := Collect(f, hashes[1..]);
      match f(hashes[0]) {
        case None => assert [] + tail == tail;
        case Some(x) => assert ([x] + tail)[1..] == tail;
      }
    }
  }

  lemma {:induction false} VersionsAreDescribed(env: Env, d: Disk, hashes: seq<Hash>, id: ProjectId)
    ensures Hashes(Versions(env, d, hashes, id)) == Described(env, d, hashes, id)
  {
    CollectedAreKept(VersionOf(env, d, id), Keeps(env, d, id), hashes);
  }

  lemma {:induction false} FilterConcat(keep: Hash -> bool, a: seq<Hash>, b: seq<Hash>)
    ensures Filter(keep, a + b) == Filter(keep, a) + Filter(keep, b)
    decreases |a|
  {
    if a == [] {
      assert a + b == b;
    } else {
      assert (a + b)[0] == a[0] && (a + b)[1..] == a[1..] + b;
      FilterConcat(keep, a[1..], b);
    }
  }

  predicate AllIn(a: seq<Hash>, b: seq<Hash>) {
    forall i :: 0 <= i < |a| ==> a[i] in b
  }

  /** Stored generations never change, so neither does what a listing says about them. */
  lemma {:induction false} DescribedLater(env: Env, v: World, u: World, hashes: seq<Hash>, id: ProjectId)
    requires EnvOk(env) && Sound(env, v) && Sound(env, u) && Grows(v, u)
    requires AllIn(hashes, History(v.moves))
    ensures Described(env, u.disk, hashes, id) == Described(env, v.disk, hashes, id)
    decreases |hashes|
  {
    if hashes != [] {
      DescribeLater(env, v, u, hashes[0], id);
      assert forall i :: 0 <= i < |hashes[1..]| ==> hashes[1..][i] == hashes[i + 1];
      DescribedLater(env, v, u, hashes[1..], id);
    }
  }

  lemma {:induction false} DescribeLater(env: Env, v: World, u: World, h: Hash, id: ProjectId)
    requires EnvOk(env) && Sound(env, v) && Sound(env, u) && Grows(v, u) && h in History(v.moves)
    ensures Describe(env, u.disk, h, id) == Describe(env, v.disk, h, id)
  {
    HistoryIn(v.moves, h);
    var i :| 0 <= i < |v.moves| && v.moves[i].target == h;
    assert MoveOk(v, i);
    if i > 0 {
      assert MoveOk(v, i - 1);
    } else {
      assert "" !in v.disk.snapshots && "" !in u.disk.snapshots;
    }
  }

  /** The states of a listing: the catalog only grows while its pages are read. */
  ghost predicate Later(env: Env, v: World, states: seq<World>) {
    forall i :: 0 <= i < |states| ==> Sound(env, states[i]) && Grows(v, states[i])
  }

  lemma {:induction false} CursorLater(env: Env, v: World, u: World, cursor: Hash, n: nat)
    requires EnvOk(env) && Sound(env, v) && Sound(env, u) && Grows(v, u) && 0 < n && CursorAt(v, cursor, n)
    ensures CursorAt(u, cursor, n + |u.moves| - |v.moves|)
  {
    HistoryPrefix(v.moves, u.moves);
    var k := |u.moves| - |v.moves|;
    assert History(u.moves)[k..][n - 1] == History(u.moves)[k + n - 1];
  }

  /** The position that `pages` pages of `limit` generations reach from `n`. */
  function Reach(n: nat, pages: nat, limit: nat, total: nat): (r: nat)
    requires n <= total
    ensures n <= r <= total
    decreases pages
  {
    if pages == 0 then n else Reach(Min(n + limit, total), pages - 1, limit, total)
  }

  lemma {:induction false} ReachEnd(pages: nat, limit: nat, total: nat)
    ensures Reach(total, pages, limit, total) == total
    decreases pages
  {
    if pages > 0 {
      ReachEnd(pages - 1, limit, total);
    }
  }

  lemma {:induction false} ReachAll(n: nat, pages: nat, limit: nat, total: nat)
    requires n <= total <= n + pages * limit
    ensures Reach(n, pages, limit, total) == total
    decreases pages
  {
    if pages > 0 {
      if n + limit >= total {
        ReachEnd(pages - 1, limit, total);
      } else {
        assert pages * limit == limit + (pages - 1) * limit;
        ReachAll(n + limit, pages - 1, limit, total);
      }
    }
  }

  /** The listing behind position `n` is the described ones among the generations it reaches. */
  ghost predicate ListedBehind(env: Env, v: World, states: seq<World>, id: ProjectId, cursor: Hash, n: nat, limit: nat)
    requires n <= |v.moves|
  {
    Listed(env, states, id, cursor, limit)
      == Described(env, v.disk, History(v.moves)[n..Reach(n, |states|, limit, |v.moves|)], id)
  }

  /** Pages read behind position `n` list the described ones among the next `|states| * limit`
      generations of `v`, whatever was published in between. */
  lemma {:induction false} ListedFrom(env: Env, v: World, states: seq<World>, id: ProjectId, cursor: Hash, n: nat, limit: int)
    requires EnvOk(env) && Sound(env, v) && v.moves != [] && 1 <= limit <= MAX_VERSION_PAGE && id != ""
    requires Later(env, v, states) && CursorAt(v, cursor, n) && n < |v.moves|
    requires n == 0 && states != [] ==> states[0].moves == v.moves
    ensures ListedBehind(env, v, states, id, cursor, n, limit)
    decreases |states|
  {
    var h := History(v.moves);
    if states != [] {
      LaterPage(env, v, states[0], id, cursor, n, limit);
      if n + limit < |h| {
        LaterTail(env, v, states);
        ListedFrom(env, v, states[1..], id, h[n + limit - 1], n + limit, limit);
      }
      UnfoldListed(env, states, id, cursor, limit);
      var page := PageOf(env, states[0].disk, id, cursor, limit);
      JoinListing(Keeps(env, v.disk, id), h, page, Listed(env, states, id, cursor, limit),
                  Listed(env, states[1..], id, page.next, limit), n, |states|, limit);
    }
  }

  /** The listing is one page and what its cursor leads to. */
  ghost predicate Unfolds(env: Env, states: seq<World>, id: ProjectId, cursor: Hash, limit: nat, page: PageResult)
    requires states != []
  {
    && page.PageIs?
    && Listed(env, states, id, cursor, limit)
       == (if page.next == "" then Hashes(page.versions)
           else Hashes(page.versions) + Listed(env, states[1..], id, page.next, limit))
  }

  lemma {:induction false} UnfoldListed(env: Env, states: seq<World>, id: ProjectId, cursor: Hash, limit: nat)
    requires states != [] && PageOf(env, states[0].disk, id, cursor, limit).PageIs?
    ensures Unfolds(env, states, id, cursor, limit, PageOf(env, states[0].disk, id, cursor, limit))
  {
  }

  lemma {:induction false} JoinListing(keep: Hash -> bool, h: seq<Hash>, page: PageResult, listed: seq<Hash>, rest: seq<Hash>,
                                       n: nat, pages: nat, limit: nat)
    requires pages > 0 && n < |h| && limit >= 1 && page.PageIs?
    requires IsPageOf(keep, h, n, limit, page)
    requires listed == if page.next == "" then Hashes(page.versions) else Hashes(page.versions) + rest
    requires n + limit < |h| ==> rest == Filter(keep, h[n + limit..Reach(n + limit, pages - 1, limit, |h|)])
    ensures listed == Filter(keep, h[n..Reach(n, pages, limit, |h|)])
  {
    var mid := Min(n + limit, |h|);
    var stop := Reach(mid, pages - 1, limit, |h|);
    assert Reach(n, pages, limit, |h|) == stop;
    if n + limit < |h| {
      assert mid == n + limit && page.next != "";
      assert listed == Filter(keep, h[n..mid]) + Filter(keep, h[mid..stop]);
      FilterParts(keep, h, n, mid, stop);
    } else {
      ReachEnd(pages - 1, limit, |h|);
      assert page.next == "" && stop == mid;
    }
  }

  lemma {:induction false} FilterParts(keep: Hash -> bool, h: seq<Hash>, n: nat, mid: nat, stop: nat)
    requires n <= mid <= stop <= |h|
    ensures Filter(keep, h[n..stop]) == Filter(keep, h[n..mid]) + Filter(keep, h[mid..stop])
  {
    assert h[n..stop] == h[n..mid] + h[mid..stop];
    FilterConcat(keep, h[n..mid], h[mid..stop]);
  }

  lemma {:induction false} LaterTail(env: Env, v: World, states: seq<World>)
    requires Later(env, v, states) && states != []
    ensures Later(env, v, states[1..])
  {
    assert forall i :: 0 <= i < |states[1..]| ==> states[1..][i] == states[i + 1];
  }

  /** `page` lists what is kept of the next `limit` generations of `h` behind `n`. */
  ghost predicate IsPageOf(keep: Hash -> bool, h: seq<Hash>, n: nat, limit: int, page: PageResult)
    requires n <= |h| && limit >= 1
  {
    var end := Min(n + limit, |h|);
    && page.PageIs? && Hashes(page.versions) == Filter(keep, h[n..end])
    && page.next == (if end < |h| then h[end - 1] else "")
    && (end < |h| ==> page.next != "")
  }

  ghost predicate PageOfHistory(env: Env, v: World, id: ProjectId, n: nat, limit: int, page: PageResult)
    requires n <= |v.moves| && limit >= 1
  {
    IsPageOf(Keeps(env, v.disk, id), History(v.moves), n, limit, page)
  }

  lemma {:induction false} LaterPage(env: Env, v: World, u: World, id: ProjectId, cursor: Hash, n: nat, limit: int)
    requires EnvOk(env) && Sound(env, v) && Sound(env, u) && Grows(v, u) && v.moves != []
    requires 1 <= limit <= MAX_VERSION_PAGE && id != "" && n < |v.moves| && CursorAt(v, cursor, n)
    requires n == 0 ==> u.moves == v.moves
    ensures PageOfHistory(env, v, id, n, limit, PageOf(env, u.disk, id, cursor, limit))
  {
    var m := n + |u.moves| - |v.moves|;
    assert IsPage(env, u.disk, History(u.moves), id, m, limit, PageOf(env, u.disk, id, cursor, limit)) by {
      if n > 0 {
        CursorLater(env, v, u, cursor, n);
      }
      PageIsSlice(env, u, id, cursor, m, limit);
    }
    SamePage(env, v, u, id, n, m, limit, PageOf(env, u.disk, id, cursor, limit));
  }

  predicate EndsWith(g: seq<Hash>, h: seq<Hash>) {
    |h| <= |g| && g[|g| - |h|..] == h
  }

  lemma {:induction false} HistoryEnds(a: seq<Move>, b: seq<Move>)
    requires a <= b
    ensures EndsWith(History(b), History(a))
  {
    HistoryPrefix(a, b);
  }

  lemma {:induction false} Shifted(h: seq<Hash>, g: seq<Hash>, n: nat, end: nat)
    requires n <= end <= |h| <= |g| && EndsWith(g, h)
    ensures var k := |g| - |h|;
            && g[n + k..end + k] == h[n..end]
            && (n < end ==> g[end + k - 1] == h[end - 1])
            && AllIn(h[n..end], h)
  {
    var k := |g| - |h|;
    assert g[k..][n..end] == g[n + k..end + k];
    if n < end {
      assert g[k..][end - 1] == g[end + k - 1];
    }
  }

  lemma {:induction false} SamePage(env: Env, v: World, u: World, id: ProjectId, n: nat, m: nat, limit: int, page: PageResult)
    requires EnvOk(env) && Sound(env, v) && Sound(env, u) && Grows(v, u) && n < |v.moves| <= |u.moves| && limit >= 1
    requires m == n + |u.moves| - |v.moves| && IsPage(env, u.disk, History(u.moves), id, m, limit, page)
    ensures PageOfHistory(env, v, id, n, limit, page)
  {
    var h, g := History(v.moves), History(u.moves);
    var end := Min(n + limit, |h|);
    assert Described(env, u.disk, h[n..end], id) == Described(env, v.disk, h[n..end], id) by {
      HistoryEnds(v.moves, u.moves);
      Shifted(h, g, n, end);
      DescribedLater(env, v, u, h[n..end], id);
    }
    HistoryEnds(v.moves, u.moves);
    SamePageValue(env, v.disk, u.disk, h, g, id, n, m, limit, page);
  }

  lemma {:induction false} SamePageValue(env: Env, d: Disk, e: Disk, h: seq<Hash>, g: seq<Hash>, id: ProjectId,
                                         n: nat, m: nat, limit: int, page: PageResult)
    requires n < |h| <= |g| && EndsWith(g, h) && limit >= 1
    requires m == n + |g| - |h| && IsPage(env, e, g, id, m, limit, page)
    requires var end := Min(n + limit, |h|);
             Described(env, e, h[n..end], id) == Described(env, d, h[n..end], id)
    ensures var end := Min(n + limit, |h|);
            && page.PageIs? && Hashes(page.versions) == Described(env, d, h[n..end], id)
            && page.next == (if end < |h| then h[end - 1] else "")
            && (end < |h| ==> page.next != "")
  {
    var k := |g| - |h|;
    var end := Min(n + limit, |h|);
    assert Min(n + k + limit, |g|) == end + k;
    Shifted(h, g, n, end);
    VersionsAreDescribed(env, e, h[n..end], id);
  }

  /** Following the cursors to the end lists every generation that was in the ancestry when the
      first page was read and that describes the project, newest first and each once, whatever is
      published between the pages. Pages always advance, so the listing ends. */
  lemma {:induction false} ListingIsComplete(env: Env, v: World, states: seq<World>, id: ProjectId, limit: int)
    requires EnvOk(env) && Sound(env, v) && v.moves != [] && 1 <= limit <= MAX_VERSION_PAGE && id != ""
    requires Later(env, v, states) && states != [] && states[0].moves == v.moves && |states| * limit >= |v.moves|
    ensures Listed(env, states, id, "", limit) == Described(env, v.disk, History(v.moves), id)
    ensures forall i, j :: 0 <= i < j < |Listed(env, states, id, "", limit)| ==>
              Listed(env, states, id, "", limit)[i] != Listed(env, states, id, "", limit)[j]
  {
    ListedFrom(env, v, states, id, "", 0, limit);
    ReachAll(0, |states|, limit, |v.moves|);
    assert History(v.moves)[0..|v.moves|] == History(v.moves);
    HistoryDistinct(v);
    FilterDistinct(Keeps(env, v.disk, id), History(v.moves));
  }

  /** The generation that was active before the `i`th move, or no entries before the first one. */
  ghost function EntriesBefore(v: World, i: nat): seq<Entry>
    requires i < |v.moves|
  {
    if v.moves[i].source in v.disk.snapshots then v.disk.snapshots[v.moves[i].source].entries else []
  }

  /** The `i`th installed generation has the project with a description that it did not have just before. */
  ghost predicate BringsNews(v: World, i: nat, id: ProjectId)
    requires i < |v.moves| && v.moves[i].target in v.disk.snapshots
  {
    var now, before := v.disk.snapshots[v.moves[i].target].entries, EntriesBefore(v, i);
    HasProject(now, id) && (HasProject(before, id) ==> FirstOf(before, id).desc != FirstOf(now, id).desc)
  }

  lemma {:induction false} DescribeMeans(env: Env, v: World, i: nat, id: ProjectId)
    requires EnvOk(env) && Sound(env, v) && i < |v.moves|
    ensures v.moves[i].target in v.disk.snapshots
    ensures var s := v.disk.snapshots[v.moves[i].target];
            var x := Describe(env, v.disk, v.moves[i].target, id);
            && (x.Some? <==> BringsNews(v, i, id))
            && (x.Some? ==>
                  x == Some((s, FirstOf(s.entries, id),
                             if HasProject(EntriesBefore(v, i), id) then EntryDiff(FirstOf(EntriesBefore(v, i), id).desc, FirstOf(s.entries, id).desc)
                             else ["created"])))
  {
    assert MoveOk(v, i);
    var s := v.disk.snapshots[v.moves[i].target];
    assert env.hash(s) == v.moves[i].target;
    if i == 0 {
      assert "" !in v.disk.snapshots;
    } else {
      assert MoveOk(v, i - 1);
      assert env.hash(v.disk.snapshots[v.moves[i].source]) == v.moves[i].source;
    }
    if HasProject(s.entries, id) && HasProject(EntriesBefore(v, i), id) {
      NoDiffIffSameDescription(FirstOf(EntriesBefore(v, i), id).desc, FirstOf(s.entries, id).desc);
    }
  }

  /** So a complete listing has exactly the installed generations that brought a new description of the
      project. */
  lemma {:induction false} ListingHasTheNews(env: Env, v: World, states: seq<World>, id: ProjectId, limit: int, i: nat)
    requires EnvOk(env) && Sound(env, v) && v.moves != [] && 1 <= limit <= MAX_VERSION_PAGE && id != ""
    requires Later(env, v, states) && states != [] && states[0].moves == v.moves && |states| * limit >= |v.moves|
    requires i < |v.moves|
    ensures v.moves[i].target in v.disk.snapshots
    ensures v.moves[i].target in Listed(env, states, id, "", limit) <==> BringsNews(v, i, id)
    ensures forall h :: h in Listed(env, states, id, "", limit) ==> h in History(v.moves)
  {
    ListingIsComplete(env, v, states, id, limit);
    HistoryDistinct(v);
    FilterDistinct(Keeps(env, v.disk, id), History(v.moves));
    HistoryIn(v.moves, v.moves[i].target);
    DescribeMeans(env, v, i, id);
  }

  /** And what it says about each of them: the generation and its parent, the digest of the project's entry,
      and the fields that changed, or that the project is new. */
  lemma {:induction false} VersionIs(env: Env, v: World, i: nat, id: ProjectId)
    requires EnvOk(env) && Sound(env, v) && i < |v.moves|
    ensures v.moves[i].target in v.disk.snapshots
    ensures BringsNews(v, i, id) ==>
              var s, before := v.disk.snapshots[v.moves[i].target], EntriesBefore(v, i);
              var x := VersionAt(env, v.disk, v.moves[i].target, id);
              && x.Some? && x.value.hash == v.moves[i].target && x.value.parent == v.moves[i].source
              && x.value.version == s.version && x.value.createdAt == s.createdAt
              && x.value.entryHash == env.entryHash(FirstOf(s.entries, id))
              && x.value.diff == if HasProject(before, id) then EntryDiff(FirstOf(before, id).desc, FirstOf(s.entries, id).desc) else ["created"]
  {
    assert MoveOk(v, i);
    DescribeMeans(env, v, i, id);
  }

  lemma {:induction false} FilterDistinct(keep: Hash -> bool, hashes: seq<Hash>)
    requires forall i, j :: 0 <= i < j < |hashes| ==> hashes[i] != hashes[j]
    ensures var ds := Filter(keep, hashes);
            && (forall i, j :: 0 <= i < j < |ds| ==> ds[i] != ds[j])
            && (forall h :: h in ds <==> h in hashes && keep(h))
    decreases |hashes|
  {
    if hashes != [] {
      FilterDistinct(keep, hashes[1..]);
      assert hashes[0] !in hashes[1..];
      assert forall h :: h in hashes <==> h == hashes[0] || h in hashes[1..];
    }
  }

  // ---------------------------------------------------------------- provenance

  lemma {:induction false} FoundIn(d: Disk, ids: seq<OpId>, h: Hash, id: ProjectId)
    ensures match FindApplied(d, ids, h, id)
            case Some(r) => InstallsFor(r, h, id) && exists i :: 0 <= i < |ids| && LoadOperation(d, ids[i]) == LookupIs(r)
            case None => forall i :: 0 <= i < |ids| && LoadOperation(d, ids[i]).LookupIs? ==>
                           !InstallsFor(LoadOperation(d, ids[i]).record, h, id)
    decreases |ids|
  {
    if ids != [] {
      FoundIn(d, ids[1..], h, id);
      match FindApplied(d, ids[1..], h, id) {
        case Some(r) =>
          var i :| 0 <= i < |ids[1..]| && LoadOperation(d, ids[1..][i]) == LookupIs(r);
          assert ids[i + 1] == ids[1..][i];
        case None =>
          assert forall i :: 0 < i < |ids| ==> ids[i] == ids[1..][i - 1];
      }
    }
  }

  /** In a truthful, recovered journal the provenance of a version is the very operation whose
      pointer move installed it, and it is known exactly when that operation is recorded as applied with
      a change of the project. */
  lemma {:induction false} ProvenanceIsTheInstaller(env: Env, v: World, i: nat, id: ProjectId)
    requires EnvOk(env) && Inv(env, true, v) && Pending(v.disk) == {} && i < |v.moves|
    ensures var h, op := v.moves[i].target, v.moves[i].op;
            && op in v.disk.receipts
            && FindApplied(v.disk, env.listing(v.disk.receipts.Keys), h, id)
               == if v.disk.receipts[op].status == Applied && exists c :: c in v.disk.receipts[op].changes && c.projectId == id
                  then Some(v.disk.receipts[op]) else None
  {
    MoverInstalls(env, v, i, id);
    var d := v.disk;
    var h, op, ids := v.moves[i].target, v.moves[i].op, env.listing(d.receipts.Keys);
    assert Lists(ids, d.receipts.Keys);
    assert MoveAnnounced(v, i) && op !in Pending(d);
    KnownIsFound(env, v, op);
    FoundIn(d, ids, h, id);
    match FindApplied(d, ids, h, id) {
      case Some(r) =>
        var k :| 0 <= k < |ids| && LoadOperation(d, ids[k]) == LookupIs(r);
        InstallerIsMover(v, i, ids[k], h, id);
      case None =>
        assert op in ids;
        var k :| 0 <= k < |ids| && ids[k] == op;
        assert LoadOperation(d, ids[k]) == LookupIs(d.receipts[op]);
    }
  }

  lemma {:induction false} MoverInstalls(env: Env, v: World, i: nat, id: ProjectId)
    requires EnvOk(env) && Inv(env, true, v) && Pending(v.disk) == {} && i < |v.moves|
    ensures var op := v.moves[i].op;
            && op in v.disk.receipts
            && (InstallsFor(v.disk.receipts[op], v.moves[i].target, id)
                <==> v.disk.receipts[op].status == Applied && exists c :: c in v.disk.receipts[op].changes && c.projectId == id)
  {
    var op := v.moves[i].op;
    assert MoveAnnounced(v, i) && op !in Pending(v.disk);
    KnownIsFound(env, v, op);
    assert TrueAccount(v, op);
  }

  lemma {:induction false} InstallerIsMover(v: World, i: nat, op: OpId, h: Hash, id: ProjectId)
    requires HistoryOk(v) && Truthful(v) && i < |v.moves| && v.moves[i].target == h
    requires op in v.disk.receipts && op in v.disk.intents && ValidReceipt(v.disk.intents[op], v.disk.receipts[op])
    requires InstallsFor(v.disk.receipts[op], h, id)
    ensures v.moves[i].op == op
  {
    assert TrueAccount(v, op);
    var j :| 0 <= j < |v.moves| && v.moves[j].op == op;
    assert MoveAnnounced(v, j);
  }
}
