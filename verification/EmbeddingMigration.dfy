/** Copying a collection into a new one with another embedding, in runs that can be interrupted. */
module EmbeddingMigration {
  import opened Faults
  import opened Options
  import K = KeyOrder

  datatype Point = Point(id: string, payload: string)

  /** A component of a vector. */
  datatype Number = Finite(value: int) | NotFinite

  type Vector = seq<Number>

  datatype Stored = Stored(point: Point, vector: Vector)

  function PointKey(p: Point): K.Key {
    K.Key(0, p.id)
  }

  /** The digest of a collection: of its points in the order of their ids. It is collision free, so it
      is the ordered list itself. There is none when an id is missing or occurs twice. */
  function Fingerprint(points: seq<Point>): Option<seq<Point>> {
    if (forall i :: 0 <= i < |points| ==> points[i].id != "") && K.DistinctKeys(points, PointKey)
    then Some(K.Sort(points, PointKey)) else None
  }

  /** What a migration is about: the digest of the whole source and of the points selected from it. */
  datatype Manifest = Manifest(role: string, source: seq<Point>, selected: seq<Point>, sourceCount: nat, selectedCount: nat,
                               identity: string, dimensions: nat)

  /** A job selects points, and knows the identity and the dimensions of the new embedding. */
  datatype Job = Job(role: string, select: seq<Point> -> Option<seq<Point>>, identity: string, dimensions: nat)

  datatype Target = Target(marker: Manifest, identity: string, dimensions: nat, points: seq<Stored>)

  /** `embedded` is history: the ids for which a vector was computed, in order. */
  datatype World = World(source: seq<Point>, target: Option<Target>, embedded: seq<string>)

  datatype Outcome = Migrated | Failed

  function Prepare(job: Job, source: seq<Point>): Option<Manifest> {
    var selected := job.select(source);
    if selected.None? || Fingerprint(source).None? || Fingerprint(selected.value).None? then None
    else Some(Manifest(job.role, Fingerprint(source).value, Fingerprint(selected.value).value, |source|, |selected.value|,
                       job.identity, job.dimensions))
  }

  /** A vector of the right length, with finite components that are not all zero. */
  predicate VectorOk(v: Vector, dimensions: nat) {
    |v| == dimensions && (forall i :: 0 <= i < |v| ==> v[i].Finite?) && exists i :: 0 <= i < |v| && v[i] != Finite(0)
  }

  predicate VectorsOk(stored: seq<Stored>, dimensions: nat) {
    forall i :: 0 <= i < |stored| ==> VectorOk(stored[i].vector, dimensions)
  }

  predicate Owned(t: Target, m: Manifest) {
    t.marker == m && t.identity == m.identity && t.dimensions == m.dimensions
  }

  function Points(stored: seq<Stored>): seq<Point> {
    seq(|stored|, i requires 0 <= i < |stored| => stored[i].point)
  }

  function Ids(stored: seq<Stored>): set<string> {
    set i | 0 <= i < |stored| :: stored[i].point.id
  }

  // ---------------------------------------------------------------- what the digest says

  lemma {:induction false} SortedListsAgree(a: seq<Point>, b: seq<Point>)
    requires K.StrictlySorted(a, PointKey) && K.StrictlySorted(b, PointKey) && forall p :: p in a <==> p in b
    ensures a == b
  {
    if a == [] || b == [] {
      if a != [] {
        NotEmpty(a);
      } else if b != [] {
        NotEmpty(b);
      }
    } else {
      FirstOfSorted(a, b);
      FirstOfSorted(b, a);
      K.Trichotomy(PointKey(a[0]), PointKey(b[0]));
      assert a[0] == b[0];
      RestOfSorted(a);
      RestOfSorted(b);
      forall p
        ensures p in a[1..] <==> p in b[1..]
      {
        HeadOrRest(a, p);
        HeadOrRest(b, p);
      }
      SortedListsAgree(a[1..], b[1..]);
    }
  }

  lemma {:induction false} NotEmpty(a: seq<Point>)
    requires a != []
    ensures exists p :: p in a
  {
    assert a[0] in a;
  }

  lemma {:induction false} HeadOrRest(a: seq<Point>, p: Point)
    requires a != []
    ensures p in a <==> p == a[0] || p in a[1..]
  {
    assert a == [a[0]] + a[1..];
  }

  lemma {:induction false} FirstOfSorted(a: seq<Point>, b: seq<Point>)
    requires K.StrictlySorted(a, PointKey) && a != [] && b != [] && forall p :: p in b ==> p in a
    ensures b[0] == a[0] || K.Less(PointKey(a[0]), PointKey(b[0]))
  {
    assert b[0] in a;
    var i :| 0 <= i < |a| && a[i] == b[0];
    assert K.Apart(a, PointKey, 0, i);
  }

  lemma {:induction false} RestOfSorted(a: seq<Point>)
    requires K.StrictlySorted(a, PointKey) && a != []
    ensures K.StrictlySorted(a[1..], PointKey) && a[0] !in a[1..]
  {
    forall i, j
      ensures K.Apart(a[1..], PointKey, i, j)
    {
      assert K.Apart(a, PointKey, i + 1, j + 1);
    }
    if a[0] in a[1..] {
      var i :| 0 <= i < |a[1..]| && a[1..][i] == a[0];
      assert K.Apart(a, PointKey, 0, i + 1);
      K.Trichotomy(PointKey(a[0]), PointKey(a[0]));
    }
  }

  /** Two collections have the same digest exactly when they hold the same points, in whatever order
      they are scanned. */
  lemma {:induction false} FingerprintIsContent(a: seq<Point>, b: seq<Point>)
    requires Fingerprint(a).Some? && Fingerprint(b).Some?
    ensures Fingerprint(a) == Fingerprint(b) <==> forall p :: p in a <==> p in b
  {
    K.SortSorts(a, PointKey);
    K.SortSorts(b, PointKey);
    forall p: Point
      ensures p in K.Sort(a, PointKey) <==> p in a
      ensures p in K.Sort(b, PointKey) <==> p in b
    {
      K.SortHas(a, PointKey, p);
      K.SortHas(b, PointKey, p);
    }
    if forall p :: p in a <==> p in b {
      SortedListsAgree(K.Sort(a, PointKey), K.Sort(b, PointKey));
    }
  }

  // ---------------------------------------------------------------- a run

  /** The points of a target belong to the manifest, each once. */
  ghost predicate Within(stored: seq<Stored>, m: Manifest) {
    && (forall i :: 0 <= i < |stored| ==> stored[i].point in m.selected)
    && forall i, j :: 0 <= i < j < |stored| ==> stored[i].point.id != stored[j].point.id
  }

  /** The target holds exactly the selected points. */
  ghost predicate Exact(stored: seq<Stored>, m: Manifest) {
    Within(stored, m) && forall p :: p in m.selected ==> exists i :: 0 <= i < |stored| && stored[i].point == p
  }

  /** A manifest as `Prepare` makes it. */
  ghost predicate ManifestOk(m: Manifest) {
    && m.selectedCount == |m.selected| && K.StrictlySorted(m.selected, PointKey)
    && forall i :: 0 <= i < |m.selected| ==> m.selected[i].id != ""
  }

  predicate Verified(stored: seq<Stored>, m: Manifest) {
    VectorsOk(stored, m.dimensions) && |stored| == m.selectedCount && Fingerprint(Points(stored)) == Some(m.selected)
  }

  lemma {:induction false} PreparedIsOk(job: Job, source: seq<Point>)
    requires Prepare(job, source).Some?
    ensures ManifestOk(Prepare(job, source).value)
    ensures forall p :: p in Prepare(job, source).value.selected <==> p in job.select(source).value
  {
    var selected := job.select(source).value;
    var sorted := K.Sort(selected, PointKey);
    K.SortSorts(selected, PointKey);
    if selected != [] {
      K.SortHas(selected, PointKey, selected[0]);
    } else {
      assert sorted == [];
    }
    forall p: Point
      ensures p in sorted <==> p in selected
    {
      K.SortHas(selected, PointKey, p);
    }
    forall i | 0 <= i < |sorted|
      ensures sorted[i].id != ""
    {
      assert sorted[i] in selected;
    }
  }

  lemma {:induction false} SameIdSamePoint(m: Manifest, p: Point, q: Point)
    requires ManifestOk(m) && p in m.selected && q in m.selected && p.id == q.id
    ensures p == q
  {
    var i :| 0 <= i < |m.selected| && m.selected[i] == p;
    var j :| 0 <= j < |m.selected| && m.selected[j] == q;
    assert K.Apart(m.selected, PointKey, i, j) && K.Apart(m.selected, PointKey, j, i);
    K.Trichotomy(PointKey(p), PointKey(q));
  }

  /** The final check accepts a target exactly when it holds exactly the selected points, each with a
      usable vector. */
  lemma {:induction false} VerifiedIsExact(stored: seq<Stored>, m: Manifest)
    requires ManifestOk(m)
    ensures Verified(stored, m) <==> Exact(stored, m) && VectorsOk(stored, m.dimensions)
  {
    var points := Points(stored);
    K.SortedStays(m.selected, PointKey);
    SortedAreDistinct(m.selected);
    if Verified(stored, m) {
      FingerprintIsContent(points, m.selected);
      forall i | 0 <= i < |stored|
        ensures stored[i].point in m.selected
      {
        assert points[i] in points;
      }
      forall i, j | 0 <= i < j < |stored|
        ensures stored[i].point.id != stored[j].point.id
      {
        assert PointKey(points[i]) != PointKey(points[j]);
      }
      forall p | p in m.selected
        ensures exists i :: 0 <= i < |stored| && stored[i].point == p
      {
        assert p in points;
        var i :| 0 <= i < |points| && points[i] == p;
      }
    }
    if Exact(stored, m) {
      ExactHasFingerprint(stored, m);
    }
  }

  lemma {:induction false} SortedAreDistinct(points: seq<Point>)
    requires K.StrictlySorted(points, PointKey)
    ensures K.DistinctKeys(points, PointKey)
  {
    forall i, j | 0 <= i < j < |points|
      ensures PointKey(points[i]) != PointKey(points[j])
    {
      assert K.Apart(points, PointKey, i, j);
      K.Trichotomy(PointKey(points[i]), PointKey(points[j]));
    }
  }

  lemma {:induction false} ExactHasFingerprint(stored: seq<Stored>, m: Manifest)
    requires ManifestOk(m) && Exact(stored, m)
    ensures Fingerprint(Points(stored)) == Some(m.selected) && |stored| == |m.selected|
  {
    var points := Points(stored);
    forall i | 0 <= i < |points|
      ensures points[i].id != ""
    {
      assert stored[i].point in m.selected;
    }
    forall p
      ensures p in points <==> p in m.selected
    {
      if p in points {
        var i :| 0 <= i < |points| && points[i] == p;
        assert stored[i].point in m.selected;
      }
      if p in m.selected {
        var i :| 0 <= i < |stored| && stored[i].point == p;
        assert points[i] == p;
      }
    }
    K.SortedStays(m.selected, PointKey);
    SortedAreDistinct(m.selected);
    FingerprintIsContent(points, m.selected);
    if points != [] {
      K.SortHas(points, PointKey, points[0]);
    }
  }

  /** What one run does: it refuses, or it adds points to a target of its own. A point that is there is
      neither embedded nor written again. */
  ghost predicate Runs(w: World, u: World, job: Job, m: Manifest, out: Outcome) {
    && u.source == w.source
    && (if !MayRun(w, job, m) then u == w && out.Failed?
        else
          || (u == w && out.Failed?)
          || (u.target.Some? && Extends(Before(w), u.target.value, m, w.embedded, u.embedded)
              && (out.Migrated? ==> Exact(u.target.value.points, m) && VectorsOk(u.target.value.points, m.dimensions))))
  }

  function Before(w: World): seq<Stored> {
    if w.target.Some? then w.target.value.points else []
  }

  /** The manifest is the one of the source as it is now, and the target is free or its own, with usable
      vectors. */
  ghost predicate MayRun(w: World, job: Job, m: Manifest) {
    && Prepare(job, w.source) == Some(m) && (w.target.Some? ==> Owned(w.target.value, m)) && Within(Before(w), m)
    && VectorsOk(Before(w), m.dimensions)
  }

  function SelectedIds(m: Manifest): set<string> {
    set i | 0 <= i < |m.selected| :: m.selected[i].id
  }

  ghost predicate Extends(before: seq<Stored>, t: Target, m: Manifest, embedded: seq<string>, after: seq<string>) {
    && Owned(t, m) && Within(t.points, m) && before <= t.points && embedded <= after
    && (forall k :: |embedded| <= k < |after| ==> after[k] !in Ids(before) && after[k] in SelectedIds(m))
    && forall i :: |before| <= i < |t.points| ==> t.points[i].point.id in after[|embedded|..]
  }

  /** A collection holds at most one point for an id. */
  ghost predicate UniqueIds(target: Option<Target>) {
    target.Some? ==>
      forall i, j :: 0 <= i < j < |target.value.points| ==> target.value.points[i].point.id != target.value.points[j].point.id
  }

  class Migration {
    var source: seq<Point>
    var target: Option<Target>
    var embedded: seq<string>

    constructor (source: seq<Point>)
      ensures State() == World(source, None, [])
    {
      this.source, target, embedded := source, None, [];
    }

    function State(): World
      reads this
    {
      World(source, target, embedded)
    }

    /** Scans the target; a single unusable vector fails the scan. */
    method ScanVectors(points: seq<Stored>, dimensions: nat) returns (ok: bool)
      ensures ok <==> VectorsOk(points, dimensions)
    {
      for i := 0 to |points|
        invariant VectorsOk(points[..i], dimensions)
      {
        var v := points[i].vector;
        if |v| != dimensions {
          return false;
        }
        var zero := true;
        for k := 0 to |v|
          invariant forall j :: 0 <= j < k ==> v[j].Finite?
          invariant zero <==> forall j :: 0 <= j < k ==> v[j] == Finite(0)
        {
          if v[k].NotFinite? {
            return false;
          }
          zero := zero && v[k] == Finite(0);
        }
        if zero {
          return false;
        }
        assert VectorOk(v, dimensions);
      }
      assert points[..|points|] == points;
      ok := true;
    }

    /** Every point that is there must be a selected one. */
    method CheckExisting(points: seq<Stored>, selected: seq<Point>) returns (ok: bool)
      ensures ok <==> forall i :: 0 <= i < |points| ==> points[i].point in selected
    {
      for i := 0 to |points|
        invariant forall j :: 0 <= j < i ==> points[j].point in selected
      {
        if points[i].point !in selected {
          return false;
        }
      }
      ok := true;
    }

    /** One run. `embed` computes vectors, or fails; `creates` and `faults` say how the writes go. */
    method Apply(job: Job, m: Manifest, writersStopped: bool, embed: string -> Option<Vector>, creates: bool, faults: nat -> Fault)
      returns (out: Outcome)
      requires UniqueIds(target)
      modifies this
      ensures UniqueIds(target)
      ensures if writersStopped then Runs(old(State()), State(), job, m, out) else State() == old(State()) && out.Failed?
      ensures writersStopped && MayRun(old(State()), job, m) && creates && (forall i :: faults(i).Works?)
              && (forall p :: embed(p).Some? && VectorOk(embed(p).value, m.dimensions)) ==>
                out.Migrated?
    {
      ghost var w := State();
      if !writersStopped || Prepare(job, source) != Some(m) {
        return Failed;
      }
      PreparedIsOk(job, source);
      if target.Some? {
        if !Owned(target.value, m) {
          return Failed;
        }
      }
      var selected := job.select(source).value;
      var existing := if target.Some? then target.value.points else [];
      var usable := ScanVectors(existing, m.dimensions);
      if !usable {
        return Failed;
      }
      var fine := CheckExisting(existing, selected);
      if !fine {
        return Failed;
      }
      assert MayRun(w, job, m);
      if target.None? {
        if !creates {
          return Failed;
        }
        target := Some(Target(m, job.identity, job.dimensions, []));
      }
      var copied := Copy(m, selected, embed, faults);
      if !copied {
        return Failed;
      }
      VerifiedIsExact(target.value.points, m);
      usable := ScanVectors(target.value.points, m.dimensions);
      out := if usable && Verified(target.value.points, m) then Migrated else Failed;
    }

    /** Embeds and writes the points that are missing. */
    method Copy(m: Manifest, selected: seq<Point>, embed: string -> Option<Vector>, faults: nat -> Fault) returns (ok: bool)
      requires target.Some? && Owned(target.value, m) && Within(target.value.points, m) && ManifestOk(m)
      requires K.DistinctKeys(selected, PointKey) && forall p :: p in selected <==> p in m.selected
      modifies this`target, this`embedded
      ensures target.Some? && Extends(old(target.value.points), target.value, m, old(embedded), embedded)
      ensures ok ==> Exact(target.value.points, m)
      ensures EmbeddedBy(target.value.points, |old(target.value.points)|, embed)
      ensures (forall p :: embed(p).Some?) && (forall i :: faults(i).Works?) ==> ok
    {
      ghost var before, embeddedBefore := target.value.points, embedded;
      var completed := set i | 0 <= i < |target.value.points| :: target.value.points[i].point.id;
      for i := 0 to |selected|
        invariant target.Some? && Extends(before, target.value, m, embeddedBefore, embedded)
        invariant EmbeddedBy(target.value.points, |before|, embed)
        invariant completed == Ids(before) && Ids(target.value.points) <= completed + Seen(selected, i)
        invariant forall j :: 0 <= j < i ==> Holds(target.value.points, selected[j])
      {
        var p := selected[i];
        assert p in selected;
        if p.id in completed {
          AlreadyThere(before, target.value.points, m, p);
          continue;
        }
        var v := embed(p.payload);
        if v.None? {
          return false;
        }
        ghost var points, earlier := target.value.points, embedded;
        NewId(selected, i, points, completed);
        Embeds(before, target.value, m, embeddedBefore, embedded, p, v.value);
        OneEmbedded(points, |before|, embed, p, v.value);
        embedded := embedded + [p.id];
        if faults(i).LostBefore? {
          return false;
        }
        target := Some(target.value.(points := target.value.points + [Stored(p, v.value)]));
        if !faults(i).Works? {
          return false;
        }
        Adds(points, p, v.value, selected, i);
      }
      ok := true;
    }
  }

  /** From `n` on the vectors are those that were computed for the points. */
  ghost predicate EmbeddedBy(stored: seq<Stored>, n: nat, embed: string -> Option<Vector>) {
    forall i :: n <= i < |stored| ==> embed(stored[i].point.payload) == Some(stored[i].vector)
  }

  lemma {:induction false} OneEmbedded(stored: seq<Stored>, n: nat, embed: string -> Option<Vector>, p: Point, v: Vector)
    requires EmbeddedBy(stored, n, embed) && embed(p.payload) == Some(v)
    ensures EmbeddedBy(stored + [Stored(p, v)], n, embed)
  {
  }

  predicate Holds(stored: seq<Stored>, p: Point) {
    exists i :: 0 <= i < |stored| && stored[i].point == p
  }

  function Seen(points: seq<Point>, n: nat): set<string>
    requires n <= |points|
  {
    set i | 0 <= i < n :: points[i].id
  }

  /** Embedding one more point, and writing it or not. */
  lemma {:induction false} Embeds(before: seq<Stored>, t: Target, m: Manifest, embedded: seq<string>, after: seq<string>, p: Point, v: Vector)
    requires Extends(before, t, m, embedded, after) && p in m.selected && p.id !in Ids(before) && p.id !in Ids(t.points)
    ensures Extends(before, t, m, embedded, after + [p.id])
    ensures Extends(before, t.(points := t.points + [Stored(p, v)]), m, embedded, after + [p.id])
  {
    var longer, points := after + [p.id], t.points + [Stored(p, v)];
    forall i | 0 <= i < |t.points|
      ensures t.points[i].point.id != p.id
    {
      assert t.points[i].point.id in Ids(t.points);
    }
    assert longer[|embedded|..] == after[|embedded|..] + [p.id];
    forall i | |before| <= i < |points|
      ensures points[i].point.id in longer[|embedded|..]
    {
      if i < |t.points| {
        assert t.points[i].point.id in after[|embedded|..];
      }
    }
  }

  lemma {:induction false} Adds(stored: seq<Stored>, p: Point, v: Vector, selected: seq<Point>, n: nat)
    requires n < |selected| && selected[n] == p && forall j :: 0 <= j < n ==> Holds(stored, selected[j])
    ensures forall j :: 0 <= j <= n ==> Holds(stored + [Stored(p, v)], selected[j])
    ensures Ids(stored + [Stored(p, v)]) == Ids(stored) + {p.id}
    ensures Seen(selected, n + 1) == Seen(selected, n) + {p.id}
  {
    var more := stored + [Stored(p, v)];
    forall j | 0 <= j <= n
      ensures Holds(more, selected[j])
    {
      if j < n {
        var i :| 0 <= i < |stored| && stored[i].point == selected[j];
        assert more[i].point == selected[j];
      } else {
        assert more[|stored|].point == p;
      }
    }
    forall id: string
      ensures id in Ids(more) <==> id in Ids(stored) + {p.id}
    {
      if id in Ids(stored) {
        var i :| 0 <= i < |stored| && stored[i].point.id == id;
        assert more[i].point.id == id;
      } else if id == p.id {
        assert more[|stored|].point.id == id;
      }
    }
  }

  lemma {:induction false} NewId(selected: seq<Point>, i: nat, stored: seq<Stored>, completed: set<string>)
    requires i < |selected| && K.DistinctKeys(selected, PointKey) && selected[i].id !in completed
    requires Ids(stored) <= completed + Seen(selected, i)
    ensures selected[i].id !in Ids(stored)
  {
    forall j | 0 <= j < i
      ensures selected[j].id != selected[i].id
    {
      assert PointKey(selected[j]) != PointKey(selected[i]);
    }
  }

  lemma {:induction false} AlreadyThere(before: seq<Stored>, stored: seq<Stored>, m: Manifest, p: Point)
    requires ManifestOk(m) && Within(before, m) && before <= stored && p in m.selected && p.id in Ids(before)
    ensures Holds(stored, p)
  {
    var i :| 0 <= i < |before| && before[i].point.id == p.id;
    SameIdSamePoint(m, before[i].point, p);
    assert stored[i] == before[i];
  }

  // ---------------------------------------------------------------- sequences of runs

  /** Either a run, whatever becomes of it, or somebody changes the source. */
  datatype Action = Outside | Apply(job: Job, manifest: Manifest, out: Outcome)

  ghost predicate StepBy(w: World, u: World, a: Action) {
    match a
    case Outside => u.target == w.target && u.embedded == w.embedded
    case Apply(job, m, out) => Runs(w, u, job, m, out)
  }

  ghost predicate Steps(ws: seq<World>, actions: seq<Action>) {
    |ws| == |actions| + 1 && forall i :: 0 <= i < |actions| ==> StepBy(ws[i], ws[i + 1], actions[i])
  }

  /** What a later world keeps of a target: its manifest and all its points, and none of them is
      embedded again. */
  ghost predicate Keeps(w: World, u: World) {
    && w.embedded <= u.embedded
    && (w.target.Some? ==>
          && u.target.Some? && u.target.value.marker == w.target.value.marker && w.target.value.points <= u.target.value.points
          && forall k :: |w.embedded| <= k < |u.embedded| ==> u.embedded[k] !in Ids(w.target.value.points))
  }

  lemma {:induction false} StepKeeps(w: World, u: World, a: Action)
    requires StepBy(w, u, a)
    ensures Keeps(w, u)
  {
  }

  lemma {:induction false} KeepsMore(a: World, b: World, c: World)
    requires Keeps(a, b) && Keeps(b, c)
    ensures Keeps(a, c)
  {
    if a.target.Some? {
      forall k | |a.embedded| <= k < |c.embedded|
        ensures c.embedded[k] !in Ids(a.target.value.points)
      {
        MoreIds(a.target.value.points, b.target.value.points);
        if k < |b.embedded| {
          assert c.embedded[k] == b.embedded[k];
        }
      }
    }
  }

  lemma {:induction false} MoreIds(a: seq<Stored>, b: seq<Stored>)
    requires a <= b
    ensures Ids(a) <= Ids(b)
  {
    forall id | id in Ids(a)
      ensures id in Ids(b)
    {
      var i :| 0 <= i < |a| && a[i].point.id == id;
      assert b[i].point.id == id;
    }
  }

  /** Over any sequence of runs, interrupted anywhere, with any changes of the source in between: once
      a point is in the target it stays, with its vector, and it is never embedded again. */
  lemma {:induction false} NeverEmbeddedAgain(ws: seq<World>, actions: seq<Action>, i: nat, j: nat)
    requires Steps(ws, actions) && i <= j < |ws|
    ensures Keeps(ws[i], ws[j])
    decreases j
  {
    if i < j {
      NeverEmbeddedAgain(ws, actions, i, j - 1);
      StepKeeps(ws[j - 1], ws[j], actions[j - 1]);
      KeepsMore(ws[i], ws[j - 1], ws[j]);
    }
  }

  /** And whatever is in the target belongs to the selection of the manifest that owns it. */
  lemma {:induction false} TargetStaysWithin(ws: seq<World>, actions: seq<Action>, j: nat)
    requires Steps(ws, actions) && j < |ws| && ws[0].target.None?
    ensures ws[j].target.Some? ==>
              var t := ws[j].target.value; Owned(t, t.marker) && Within(t.points, t.marker)
    decreases j
  {
    if j > 0 {
      TargetStaysWithin(ws, actions, j - 1);
      assert StepBy(ws[j - 1], ws[j], actions[j - 1]);
    }
  }

  function NewIds(ids: seq<string>, n: nat): set<string> {
    set k | n <= k < |ids| :: ids[k]
  }

  lemma {:induction false} NoNewIds(ids: seq<string>, n: nat)
    requires n <= |ids|
    ensures NewIds(ids, n) == {} <==> |ids| == n
  {
    if |ids| > n {
      assert ids[n] in NewIds(ids, n);
    }
  }

  lemma {:induction false} NoNewPoints(stored: seq<Stored>, n: nat, ids: seq<string>)
    requires forall i :: n <= i < |stored| ==> stored[i].point.id in ids
    ensures ids == [] ==> |stored| <= n
  {
    if |stored| > n {
      assert stored[n].point.id in ids;
    }
  }

  lemma {:induction false} NothingMissing(before: seq<Stored>, t: Target, m: Manifest, embedded: seq<string>, after: seq<string>)
    requires Exact(before, m) && Extends(before, t, m, embedded, after)
    ensures after == embedded && t.points == before
  {
    forall id | id in SelectedIds(m)
      ensures id in Ids(before)
    {
      var k :| 0 <= k < |m.selected| && m.selected[k].id == id;
      assert m.selected[k] in m.selected;
      var i :| 0 <= i < |before| && before[i].point == m.selected[k];
    }
    assert NewIds(after, |embedded|) <= SelectedIds(m) - Ids(before);
    NoNewIds(after, |embedded|);
    NoNewPoints(t.points, |before|, after[|embedded|..]);
  }

  /** A migration that is complete has nothing left to do. */
  lemma {:induction false} CompleteIsIdle(w: World, u: World, job: Job, m: Manifest, out: Outcome)
    requires Runs(w, u, job, m, out) && w.target.Some? && Exact(w.target.value.points, m)
    ensures u == w
  {
    if u.target.Some? && Extends(Before(w), u.target.value, m, w.embedded, u.embedded) {
      NothingMissing(Before(w), u.target.value, m, w.embedded, u.embedded);
    }
  }
}
