/** Sorting by a rank and a text. */
module KeyOrder {
  datatype Key = Key(rank: nat, text: string)

  /** The order of texts, character by character. */
  predicate TextLess(a: string, b: string) {
    b != "" && (a == "" || a[0] < b[0] || (a[0] == b[0] && TextLess(a[1..], b[1..])))
  }

  predicate Less(a: Key, b: Key) {
    a.rank < b.rank || (a.rank == b.rank && TextLess(a.text, b.text))
  }

  /** The texts agree in front of `k`, where the first one ends or has the smaller character. */
  predicate SmallerAt(a: string, b: string, k: nat) {
    && k <= |a| && k < |b| && a[..k] == b[..k] && (k < |a| ==> a[k] < b[k])
  }

  /** One text is less than another exactly when it is a shorter beginning of it, or smaller at the
      first place where they differ. */
  lemma {:induction false} TextLessIff(a: string, b: string)
    ensures TextLess(a, b) <==> exists k: nat :: SmallerAt(a, b, k)
  {
    if b == "" {
    } else if a == "" || a[0] < b[0] {
      assert SmallerAt(a, b, 0);
    } else if a[0] == b[0] {
      TextLessIff(a[1..], b[1..]);
      if k: nat :| SmallerAt(a[1..], b[1..], k) {
        assert a[..k + 1] == [a[0]] + a[1..][..k] && b[..k + 1] == [b[0]] + b[1..][..k];
        assert SmallerAt(a, b, k + 1);
      }
      if k: nat :| SmallerAt(a, b, k) {
        assert k > 0;
        assert a[1..][..k - 1] == a[..k][1..] && b[1..][..k - 1] == b[..k][1..];
        assert SmallerAt(a[1..], b[1..], k - 1);
      }
    }
  }

  lemma {:induction false} TextTrichotomy(a: string, b: string)
    ensures TextLess(a, b) || TextLess(b, a) || a == b
    ensures !(TextLess(a, b) && TextLess(b, a)) && (a == b ==> !TextLess(a, b))
  {
    if a != "" && b != "" {
      TextTrichotomy(a[1..], b[1..]);
      assert a == [a[0]] + a[1..] && b == [b[0]] + b[1..];
    }
  }

  lemma {:induction false} TextTransitive(a: string, b: string, c: string)
    requires TextLess(a, b) && TextLess(b, c)
    ensures TextLess(a, c)
  {
    if a != "" && a[0] == b[0] && b[0] == c[0] {
      TextTransitive(a[1..], b[1..], c[1..]);
    }
  }

  lemma {:induction false} Trichotomy(a: Key, b: Key)
    ensures Less(a, b) || Less(b, a) || a == b
    ensures !(Less(a, b) && Less(b, a)) && (a == b ==> !Less(a, b))
  {
    TextTrichotomy(a.text, b.text);
  }

  lemma {:induction false} Transitive(a: Key, b: Key, c: Key)
    requires Less(a, b) && Less(b, c)
    ensures Less(a, c)
  {
    if a.rank == b.rank == c.rank {
      TextTransitive(a.text, b.text, c.text);
    }
  }

  // ---------------------------------------------------------------- insertion sort

  function Insert<T>(x: T, sorted: seq<T>, key: T -> Key): seq<T> {
    if sorted == [] || !Less(key(sorted[0]), key(x)) then [x] + sorted
    else [sorted[0]] + Insert(x, sorted[1..], key)
  }

  function Sort<T>(xs: seq<T>, key: T -> Key): seq<T> {
    if xs == [] then [] else Insert(xs[0], Sort(xs[1..], key), key)
  }

  ghost predicate Apart<T>(xs: seq<T>, key: T -> Key, i: int, j: int) {
    0 <= i < j < |xs| ==> Less(key(xs[i]), key(xs[j]))
  }

  /** In order, and no key twice. */
  ghost predicate StrictlySorted<T>(xs: seq<T>, key: T -> Key) {
    forall i, j :: Apart(xs, key, i, j)
  }

  predicate DistinctKeys<T>(xs: seq<T>, key: T -> Key) {
    forall i, j :: 0 <= i < j < |xs| ==> key(xs[i]) != key(xs[j])
  }

  lemma {:induction false} InsertHas<T>(x: T, sorted: seq<T>, key: T -> Key, y: T)
    ensures y in Insert(x, sorted, key) <==> y == x || y in sorted
    ensures |Insert(x, sorted, key)| == |sorted| + 1
  {
    if sorted != [] && Less(key(sorted[0]), key(x)) {
      InsertHas(x, sorted[1..], key, y);
      assert sorted == [sorted[0]] + sorted[1..];
    }
  }

  /** Sorting loses nothing and adds nothing. */
  lemma {:induction false} SortKeeps<T>(xs: seq<T>, key: T -> Key)
    ensures multiset(Sort(xs, key)) == multiset(xs)
  {
    if xs != [] {
      SortKeeps(xs[1..], key);
      InsertKeeps(xs[0], Sort(xs[1..], key), key);
      assert xs == [xs[0]] + xs[1..];
    }
  }

  lemma {:induction false} InsertKeeps<T>(x: T, sorted: seq<T>, key: T -> Key)
    ensures multiset(Insert(x, sorted, key)) == multiset([x]) + multiset(sorted)
  {
    if sorted != [] && Less(key(sorted[0]), key(x)) {
      InsertKeeps(x, sorted[1..], key);
      assert sorted == [sorted[0]] + sorted[1..];
    }
  }

  lemma {:induction false} SortHas<T>(xs: seq<T>, key: T -> Key, y: T)
    ensures y in Sort(xs, key) <==> y in xs
    ensures |Sort(xs, key)| == |xs|
  {
    if xs != [] {
      SortHas(xs[1..], key, y);
      InsertHas(xs[0], Sort(xs[1..], key), key, y);
      assert xs == [xs[0]] + xs[1..];
    }
  }

  lemma {:induction false} InsertSorts<T>(x: T, sorted: seq<T>, key: T -> Key)
    requires StrictlySorted(sorted, key) && forall y :: y in sorted ==> key(y) != key(x)
    ensures StrictlySorted(Insert(x, sorted, key), key)
  {
    if sorted == [] {
    } else if !Less(key(sorted[0]), key(x)) {
      Trichotomy(key(sorted[0]), key(x));
      InFront(x, sorted, key);
    } else {
      var tail := sorted[1..];
      forall i, j
        ensures Apart(tail, key, i, j)
      {
        assert Apart(sorted, key, i + 1, j + 1);
      }
      InsertSorts(x, tail, key);
      var rest := Insert(x, tail, key);
      if rest != [] {
        InsertHas(x, tail, key, rest[0]);
        if rest[0] != x {
          var k :| 0 <= k < |tail| && tail[k] == rest[0];
          assert Apart(sorted, key, 0, k + 1);
        }
        InFront(sorted[0], rest, key);
      }
    }
  }

  lemma {:induction false} InFront<T>(x: T, sorted: seq<T>, key: T -> Key)
    requires StrictlySorted(sorted, key) && sorted != [] && Less(key(x), key(sorted[0]))
    ensures StrictlySorted([x] + sorted, key)
  {
    forall i, j
      ensures Apart([x] + sorted, key, i, j)
    {
      if 0 == i < j <= |sorted| {
        if j > 1 {
          assert Apart(sorted, key, 0, j - 1);
          Transitive(key(x), key(sorted[0]), key(sorted[j - 1]));
        }
      } else {
        assert Apart(sorted, key, i - 1, j - 1);
      }
    }
  }

  lemma {:induction false} BehindLast<T>(sorted: seq<T>, x: T, key: T -> Key)
    requires StrictlySorted(sorted, key) && (sorted != [] ==> Less(key(sorted[|sorted| - 1]), key(x)))
    ensures StrictlySorted(sorted + [x], key)
  {
    forall i, j
      ensures Apart(sorted + [x], key, i, j)
    {
      if 0 <= i < j == |sorted| {
        if i < j - 1 {
          assert Apart(sorted, key, i, j - 1);
          Transitive(key(sorted[i]), key(sorted[j - 1]), key(x));
        }
      } else {
        assert Apart(sorted, key, i, j);
      }
    }
  }

  lemma {:induction false} SortSorts<T>(xs: seq<T>, key: T -> Key)
    requires DistinctKeys(xs, key)
    ensures StrictlySorted(Sort(xs, key), key)
  {
    if xs != [] {
      SortSorts(xs[1..], key);
      forall y | y in Sort(xs[1..], key)
        ensures key(y) != key(xs[0])
      {
        SortHas(xs[1..], key, y);
        var k :| 0 <= k < |xs[1..]| && xs[1..][k] == y;
        assert xs[k + 1] == y;
      }
      InsertSorts(xs[0], Sort(xs[1..], key), key);
    }
  }

  ghost predicate InOrder<T>(xs: seq<T>, key: T -> Key, i: int, j: int) {
    0 <= i < j < |xs| ==> !Less(key(xs[j]), key(xs[i]))
  }

  /** In order; keys may be repeated. */
  ghost predicate Ordered<T>(xs: seq<T>, key: T -> Key) {
    forall i, j :: InOrder(xs, key, i, j)
  }

  lemma {:induction false} TailOrdered<T>(xs: seq<T>, key: T -> Key)
    requires Ordered(xs, key) && xs != []
    ensures Ordered(xs[1..], key)
  {
    forall i, j
      ensures InOrder(xs[1..], key, i, j)
    {
      assert InOrder(xs, key, i + 1, j + 1);
    }
  }

  lemma {:induction false} PrefixOrdered<T>(xs: seq<T>, key: T -> Key, n: nat)
    requires n <= |xs|
    ensures Ordered(xs, key) ==> Ordered(xs[..n], key)
    ensures StrictlySorted(xs, key) ==> StrictlySorted(xs[..n], key)
  {
    if Ordered(xs, key) {
      forall i, j
        ensures InOrder(xs[..n], key, i, j)
      {
        assert InOrder(xs, key, i, j);
      }
    }
    if StrictlySorted(xs, key) {
      forall i, j
        ensures Apart(xs[..n], key, i, j)
      {
        assert Apart(xs, key, i, j);
      }
    }
  }

  lemma {:induction false} StrictIsOrdered<T>(xs: seq<T>, key: T -> Key)
    requires StrictlySorted(xs, key)
    ensures Ordered(xs, key)
  {
    forall i, j
      ensures InOrder(xs, key, i, j)
    {
      if 0 <= i < j < |xs| {
        assert Apart(xs, key, i, j);
        Trichotomy(key(xs[i]), key(xs[j]));
      }
    }
  }

  lemma {:induction false} InFrontOrdered<T>(x: T, sorted: seq<T>, key: T -> Key)
    requires Ordered(sorted, key) && forall y :: y in sorted ==> !Less(key(y), key(x))
    ensures Ordered([x] + sorted, key)
  {
    forall i, j
      ensures InOrder([x] + sorted, key, i, j)
    {
      if 0 == i < j <= |sorted| {
        assert sorted[j - 1] in sorted;
      } else {
        assert InOrder(sorted, key, i - 1, j - 1);
      }
    }
  }

  /** Not less than the first one is not less than any. */
  lemma {:induction false} BelowAll<T>(x: T, sorted: seq<T>, key: T -> Key, y: T)
    requires Ordered(sorted, key) && sorted != [] && !Less(key(sorted[0]), key(x)) && y in sorted
    ensures !Less(key(y), key(x))
  {
    var k :| 0 <= k < |sorted| && sorted[k] == y;
    assert InOrder(sorted, key, 0, k);
    Trichotomy(key(sorted[0]), key(y));
    if Less(key(y), key(x)) && Less(key(sorted[0]), key(y)) {
      Transitive(key(sorted[0]), key(y), key(x));
    }
  }

  lemma {:induction false} InsertOrders<T>(x: T, sorted: seq<T>, key: T -> Key)
    requires Ordered(sorted, key)
    ensures Ordered(Insert(x, sorted, key), key)
  {
    if sorted == [] || !Less(key(sorted[0]), key(x)) {
      forall y | y in sorted
        ensures !Less(key(y), key(x))
      {
        BelowAll(x, sorted, key, y);
      }
      InFrontOrdered(x, sorted, key);
    } else {
      var tail := sorted[1..];
      TailOrdered(sorted, key);
      InsertOrders(x, tail, key);
      forall y | y in Insert(x, tail, key)
        ensures !Less(key(y), key(sorted[0]))
      {
        InsertHas(x, tail, key, y);
        Trichotomy(key(sorted[0]), key(x));
        if y in tail {
          var k :| 0 <= k < |tail| && tail[k] == y;
          assert InOrder(sorted, key, 0, k + 1);
        }
      }
      InFrontOrdered(sorted[0], Insert(x, tail, key), key);
    }
  }

  lemma {:induction false} SortOrders<T>(xs: seq<T>, key: T -> Key)
    ensures Ordered(Sort(xs, key), key)
  {
    if xs != [] {
      SortOrders(xs[1..], key);
      InsertOrders(xs[0], Sort(xs[1..], key), key);
    }
  }

  /** Sorting what is in order changes nothing. */
  lemma {:induction false} OrderedStays<T>(xs: seq<T>, key: T -> Key)
    requires Ordered(xs, key)
    ensures Sort(xs, key) == xs
  {
    if xs != [] {
      TailOrdered(xs, key);
      OrderedStays(xs[1..], key);
      assert |xs| > 1 ==> InOrder(xs, key, 0, 1);
    }
  }

  lemma {:induction false} SortedStays<T>(xs: seq<T>, key: T -> Key)
    requires StrictlySorted(xs, key)
    ensures Sort(xs, key) == xs
  {
    StrictIsOrdered(xs, key);
    OrderedStays(xs, key);
  }
}
