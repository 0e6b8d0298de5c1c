/**
 Sequence helpers shared by the whole project: the dictionary comprehension in
 which the last entry of a key wins, the append loop, and the stable sort.
 Every function recurses on the last element, as a loop does.
 */
module Collections {

  datatype Option<+T> = None | Some(value: T)

  datatype Result<+T, +E> = Success(value: T) | Failure(error: E)

  function Map<T, U>(xs: seq<T>, f: T -> U): (r: seq<U>)
    ensures |r| == |xs|
    ensures forall i :: 0 <= i < |xs| ==> r[i] == f(xs[i])
  {
    if xs == [] then [] else Map(xs[..|xs| - 1], f) + [f(xs[|xs| - 1])]
  }

  function Filter<T(!new)>(xs: seq<T>, p: T -> bool): (r: seq<T>)
    ensures forall x :: x in r <==> x in xs && p(x)
  {
    if xs == [] then []
    else
      var rest := Filter(xs[..|xs| - 1], p);
      var last := xs[|xs| - 1];
      assert xs == xs[..|xs| - 1] + [last];
      if p(last) then rest + [last] else rest
  }

  /** What a loop that appends `f(x)` for every `x` leaves in its list. */
  function Collect<T, V>(xs: seq<T>, f: T -> seq<V>): seq<V> {
    if xs == [] then [] else Collect(xs[..|xs| - 1], f) + f(xs[|xs| - 1])
  }

  /** `{key(x): x for x in xs}`: a later entry replaces an earlier one. */
  function IndexBy<T, K>(xs: seq<T>, key: T -> K): map<K, T> {
    if xs == [] then map[]
    else
      var last := xs[|xs| - 1];
      IndexBy(xs[..|xs| - 1], key)[key(last) := last]
  }

  /** The last entry filed under `k`, found without building a dictionary. */
  function LastBy<T, K(==)>(xs: seq<T>, key: T -> K, k: K): Option<T> {
    if xs == [] then None
    else if key(xs[|xs| - 1]) == k then Some(xs[|xs| - 1])
    else LastBy(xs[..|xs| - 1], key, k)
  }

  function Lookup<K, V>(m: map<K, V>, k: K): Option<V> {
    if k in m then Some(m[k]) else None
  }

  ghost predicate Distinct<T>(xs: seq<T>) {
    forall i, j :: 0 <= i < j < |xs| ==> xs[i] != xs[j]
  }

  lemma {:induction false} AppendAssociates<T>(a: seq<T>, b: seq<T>, c: seq<T>)
    ensures a + b + c == a + (b + c)
  {
  }

  lemma {:induction false} InitLast<T>(xs: seq<T>)
    requires xs != []
    ensures xs == xs[..|xs| - 1] + [xs[|xs| - 1]]
  {
  }

  lemma {:induction false} PrefixStep<T>(xs: seq<T>, i: nat)
    requires i < |xs|
    ensures xs[..i + 1][..i] == xs[..i] && xs[..i + 1][i] == xs[i]
  {
  }

  lemma {:induction false} IndexByIsLast<T, K>(xs: seq<T>, key: T -> K, k: K)
    ensures Lookup(IndexBy(xs, key), k) == LastBy(xs, key, k)
  {
    if xs != [] {
      IndexByIsLast(xs[..|xs| - 1], key, k);
    }
  }

  lemma {:induction false} IndexByKeys<T, K>(xs: seq<T>, key: T -> K)
    ensures forall k :: k in IndexBy(xs, key) ==> IndexBy(xs, key)[k] in xs && key(IndexBy(xs, key)[k]) == k
    ensures forall x :: x in xs ==> key(x) in IndexBy(xs, key)
  {
    if xs != [] {
      InitLast(xs);
      IndexByKeys(xs[..|xs| - 1], key);
    }
  }

  /** Entries that agree whenever their keys agree are all found again. */
  lemma {:induction false} IndexByConsistent<T, K>(xs: seq<T>, key: T -> K)
    requires forall x, y :: x in xs && y in xs && key(x) == key(y) ==> x == y
    ensures forall x :: x in xs ==> key(x) in IndexBy(xs, key) && IndexBy(xs, key)[key(x)] == x
  {
    IndexByKeys(xs, key);
  }

  /** Rewriting entries without touching their keys rewrites the dictionary. */
  lemma {:induction false} IndexByRewrite<T, K>(xs: seq<T>, key: T -> K, h: T -> T)
    requires forall x :: key(h(x)) == key(x)
    ensures IndexBy(Map(xs, h), key).Keys == IndexBy(xs, key).Keys
    ensures forall k :: k in IndexBy(xs, key) ==> IndexBy(Map(xs, h), key)[k] == h(IndexBy(xs, key)[k])
  {
    if xs != [] {
      IndexByRewrite(xs[..|xs| - 1], key, h);
      assert Map(xs, h)[..|xs| - 1] == Map(xs[..|xs| - 1], h);
    }
  }

  lemma {:induction false} FilterRewrite<T(!new)>(xs: seq<T>, p: T -> bool, h: T -> T)
    requires forall x :: p(h(x)) == p(x)
    ensures Filter(Map(xs, h), p) == Map(Filter(xs, p), h)
  {
    if xs != [] {
      var init := xs[..|xs| - 1];
      FilterRewrite(init, p, h);
      assert Map(xs, h)[..|xs| - 1] == Map(init, h);
      if p(xs[|xs| - 1]) {
        assert Filter(xs, p)[..|Filter(xs, p)| - 1] == Filter(init, p);
      }
    }
  }

  lemma {:induction false} FilterAll<T(!new)>(xs: seq<T>, p: T -> bool)
    requires forall x :: x in xs ==> p(x)
    ensures Filter(xs, p) == xs
  {
    if xs != [] {
      InitLast(xs);
      FilterAll(xs[..|xs| - 1], p);
    }
  }

  lemma {:induction false} FilterNone<T(!new)>(xs: seq<T>, p: T -> bool)
    requires forall x :: x in xs ==> !p(x)
    ensures Filter(xs, p) == []
  {
    if xs != [] {
      InitLast(xs);
      FilterNone(xs[..|xs| - 1], p);
    }
  }

  lemma {:induction false} FilterSnoc<T(!new)>(xs: seq<T>, x: T, p: T -> bool)
    ensures Filter(xs + [x], p) == if p(x) then Filter(xs, p) + [x] else Filter(xs, p)
  {
    assert (xs + [x])[..|xs|] == xs;
  }

  lemma {:induction false} FilterPrefix<T(!new)>(xs: seq<T>, n: nat, p: T -> bool)
    requires n < |xs|
    ensures Filter(xs[..n + 1], p) == if p(xs[n]) then Filter(xs[..n], p) + [xs[n]] else Filter(xs[..n], p)
  {
    PrefixStep(xs, n);
  }

  lemma {:induction false} CollectSnoc<T, V>(xs: seq<T>, x: T, f: T -> seq<V>)
    ensures Collect(xs + [x], f) == Collect(xs, f) + f(x)
  {
    assert (xs + [x])[..|xs|] == xs;
  }

  lemma {:induction false} FilterAppend<T(!new)>(xs: seq<T>, ys: seq<T>, p: T -> bool)
    ensures Filter(xs + ys, p) == Filter(xs, p) + Filter(ys, p)
  {
    if ys == [] {
      assert xs + ys == xs;
    } else {
      FilterAppend(xs, ys[..|ys| - 1], p);
      assert (xs + ys)[..|xs + ys| - 1] == xs + ys[..|ys| - 1];
    }
  }

  lemma {:induction false} CollectEmpty<T, V>(xs: seq<T>, f: T -> seq<V>)
    ensures Collect(xs, f) == [] <==> forall x :: x in xs ==> f(x) == []
  {
    if xs != [] {
      InitLast(xs);
      CollectEmpty(xs[..|xs| - 1], f);
    }
  }

  lemma {:induction false} CollectMembers<T(!new), V>(xs: seq<T>, f: T -> seq<V>)
    ensures forall v :: v in Collect(xs, f) <==> exists x :: x in xs && v in f(x)
  {
    if xs != [] {
      InitLast(xs);
      CollectMembers(xs[..|xs| - 1], f);
    }
  }

  lemma {:induction false} CollectSame<T, V>(xs: seq<T>, f: T -> seq<V>, g: T -> seq<V>)
    requires forall x :: x in xs ==> f(x) == g(x)
    ensures Collect(xs, f) == Collect(xs, g)
  {
    if xs != [] {
      InitLast(xs);
      CollectSame(xs[..|xs| - 1], f, g);
    }
  }

  /** A check that speaks up on one element only. */
  lemma {:induction false} CollectSingle<T, V>(xs: seq<T>, f: T -> seq<V>, x: T)
    requires Distinct(xs) && x in xs
    requires forall y :: y in xs && y != x ==> f(y) == []
    ensures Collect(xs, f) == f(x)
  {
    InitLast(xs);
    var init, last := xs[..|xs| - 1], xs[|xs| - 1];
    if last == x {
      CollectEmpty(init, f);
    } else {
      CollectSingle(init, f, x);
    }
  }

  lemma {:induction false} FilterSame<T(!new)>(xs: seq<T>, p: T -> bool, q: T -> bool)
    requires forall x :: x in xs ==> p(x) == q(x)
    ensures Filter(xs, p) == Filter(xs, q)
  {
    if xs != [] {
      InitLast(xs);
      FilterSame(xs[..|xs| - 1], p, q);
    }
  }

  lemma {:induction false} SortByDistinct<T(!new)>(xs: seq<T>, key: T -> Key)
    requires Distinct(xs)
    ensures Distinct(SortBy(xs, key))
  {
    var sorted := SortBy(xs, key);
    DistinctMultiplicity(xs);
    forall i, j | 0 <= i < j < |sorted|
      ensures sorted[i] != sorted[j]
    {
      if sorted[i] == sorted[j] {
        RepeatedMultiplicity(sorted, i, j);
      }
    }
  }

  lemma {:induction false} DistinctMultiplicity<T>(xs: seq<T>)
    requires Distinct(xs)
    ensures forall x :: x in xs ==> multiset(xs)[x] == 1
  {
    if xs != [] {
      InitLast(xs);
      DistinctMultiplicity(xs[..|xs| - 1]);
    }
  }

  lemma {:induction false} RepeatedMultiplicity<T>(xs: seq<T>, i: nat, j: nat)
    requires i < j < |xs| && xs[i] == xs[j]
    ensures multiset(xs)[xs[i]] >= 2
  {
    assert xs == xs[..j] + xs[j..];
    assert xs[i] in xs[..j] && xs[j] in xs[j..];
  }

  // ----- the latest entry

  /** Entry `i` matches, and no later one does. */
  ghost predicate IsLatest<T>(xs: seq<T>, matches: T -> bool, i: nat) {
    i < |xs| && matches(xs[i]) && forall j :: i < j < |xs| ==> !matches(xs[j])
  }

  lemma {:induction false} LatestStands<T(!new), K>(
      xs: seq<T>, p: T -> bool, key: T -> K, k: K, matches: T -> bool) returns (i: nat)
    requires forall x :: matches(x) <==> p(x) && key(x) == k
    requires k in IndexBy(Filter(xs, p), key)
    ensures IsLatest(xs, matches, i) && xs[i] == IndexBy(Filter(xs, p), key)[k]
  {
    var n := |xs| - 1;
    if matches(xs[n]) {
      i := n;
    } else {
      i := LatestStands(xs[..n], p, key, k, matches);
    }
  }

  lemma {:induction false} LatestIsOne<T>(xs: seq<T>, matches: T -> bool, i: nat, j: nat)
    requires IsLatest(xs, matches, i) && IsLatest(xs, matches, j)
    ensures i == j
  {
  }

  /** The dictionary over the filtered list holds the latest entry that passes and has the key. */
  lemma {:induction false} LatestFiled<T(!new), K>(
      xs: seq<T>, p: T -> bool, key: T -> K, k: K, matches: T -> bool, x: T)
    requires forall y :: matches(y) <==> p(y) && key(y) == k
    ensures Lookup(IndexBy(Filter(xs, p), key), k) == Some(x) <==>
            exists i: nat :: IsLatest(xs, matches, i) && xs[i] == x
  {
    if k in IndexBy(Filter(xs, p), key) {
      var i := LatestStands(xs, p, key, k, matches);
      if j: nat :| IsLatest(xs, matches, j) && xs[j] == x {
        LatestIsOne(xs, matches, i, j);
      }
    } else if i: nat :| IsLatest(xs, matches, i) && xs[i] == x {
      assert xs[i] in xs;
      IndexByKeys(Filter(xs, p), key);
      assert false;
    }
  }

  lemma {:induction false} LatestIndexed<T(!new), K>(xs: seq<T>, key: T -> K, k: K, matches: T -> bool, x: T)
    requires forall y :: matches(y) <==> key(y) == k
    ensures Lookup(IndexBy(xs, key), k) == Some(x) <==> exists i: nat :: IsLatest(xs, matches, i) && xs[i] == x
  {
    FilterAll(xs, (y: T) => true);
    LatestFiled(xs, (y: T) => true, key, k, matches, x);
  }

  // ----- keys and sorting

  /** Python compares tuples field by field; unused fields stay empty. */
  datatype Key = Key(rank: int, first: string, second: string, third: string)

  function Single(a: string): Key { Key(0, a, "", "") }

  function Pair(a: string, b: string): Key { Key(0, a, b, "") }

  predicate StringLess(a: string, b: string) {
    if b == [] then false
    else if a == [] then true
    else if a[0] != b[0] then a[0] < b[0]
    else StringLess(a[1..], b[1..])
  }

  predicate Less(a: Key, b: Key) {
    if a.rank != b.rank then a.rank < b.rank
    else if a.first != b.first then StringLess(a.first, b.first)
    else if a.second != b.second then StringLess(a.second, b.second)
    else StringLess(a.third, b.third)
  }

  lemma {:induction false} StringLessTotal(a: string, b: string)
    ensures StringLess(a, b) || StringLess(b, a) || a == b
    ensures !(StringLess(a, b) && StringLess(b, a))
    ensures !StringLess(a, a)
  {
    if a != [] && b != [] && a[0] == b[0] {
      StringLessTotal(a[1..], b[1..]);
      assert a == [a[0]] + a[1..] && b == [b[0]] + b[1..];
    }
    if a != [] && a != b {
      StringLessTotal(a[1..], a[1..]);
    } else if a != [] {
      StringLessTotal(a[1..], b[1..]);
    }
  }

  lemma {:induction false} StringLessTransitive(a: string, b: string, c: string)
    requires StringLess(a, b) && StringLess(b, c)
    ensures StringLess(a, c)
  {
    if a != [] && a[0] == b[0] == c[0] {
      StringLessTransitive(a[1..], b[1..], c[1..]);
    }
  }

  lemma {:induction false} LessTotal(a: Key, b: Key)
    ensures Less(a, b) || Less(b, a) || a == b
    ensures !(Less(a, b) && Less(b, a))
    ensures !Less(a, a)
  {
    StringLessTotal(a.first, b.first);
    StringLessTotal(a.second, b.second);
    StringLessTotal(a.third, b.third);
    StringLessTotal(a.third, a.third);
  }

  lemma {:induction false} LessTransitive(a: Key, b: Key, c: Key)
    requires Less(a, b) && Less(b, c)
    ensures Less(a, c)
  {
    StringLessTotal(a.first, b.first);
    StringLessTotal(a.second, b.second);
    if a.first == b.first == c.first {
      if a.second == b.second == c.second {
        if a.rank == b.rank == c.rank {
          StringLessTransitive(a.third, b.third, c.third);
        }
      } else if StringLess(a.second, b.second) && StringLess(b.second, c.second) {
        StringLessTransitive(a.second, b.second, c.second);
        StringLessTotal(a.second, c.second);
      }
    } else if StringLess(a.first, b.first) && StringLess(b.first, c.first) {
      StringLessTransitive(a.first, b.first, c.first);
      StringLessTotal(a.first, c.first);
    }
  }

  ghost predicate Ascending(ks: seq<Key>) {
    forall i, j :: 0 <= i < j < |ks| ==> Less(ks[i], ks[j])
  }

  predicate IsLeast(least: Key, s: set<Key>) {
    least in s && forall k :: k in s && k != least ==> Less(least, k)
  }

  lemma {:induction false} LeastKey(s: set<Key>) returns (least: Key)
    requires s != {}
    ensures IsLeast(least, s)
  {
    var any :| any in s;
    var rest := s - {any};
    assert s == rest + {any};
    if rest == {} {
      least := any;
    } else {
      var m := LeastKey(rest);
      LessTotal(any, m);
      least := if Less(any, m) then any else m;
      forall k | k in s && k != least
        ensures Less(least, k)
      {
        if least == any && k != m {
          LessTransitive(any, m, k);
        }
      }
    }
  }

  lemma {:induction false} LeastIsUnique(a: Key, b: Key, s: set<Key>)
    requires IsLeast(a, s) && IsLeast(b, s)
    ensures a == b
  {
    LessTotal(a, b);
  }

  lemma {:induction false} LeastExists(s: set<Key>)
    requires s != {}
    ensures exists k :: IsLeast(k, s)
    ensures forall a, b :: IsLeast(a, s) && IsLeast(b, s) ==> a == b
  {
    var k := LeastKey(s);
    forall a, b | IsLeast(a, s) && IsLeast(b, s)
      ensures a == b
    {
      LeastIsUnique(a, b, s);
    }
  }

  function Least(s: set<Key>): (least: Key)
    requires s != {}
    ensures IsLeast(least, s)
  {
    LeastExists(s);
    var least :| least in s && IsLeast(least, s);
    least
  }

  /** `sorted(s)` of a set of keys. */
  function SortedKeys(s: set<Key>): (r: seq<Key>)
    ensures forall k :: k in r <==> k in s
    decreases |s|
  {
    if s == {} then []
    else
      var least := Least(s);
      [least] + SortedKeys(s - {least})
  }

  lemma {:induction false} LeastFirst(least: Key, ks: seq<Key>)
    requires Ascending(ks) && forall n :: 0 <= n < |ks| ==> Less(least, ks[n])
    ensures Ascending([least] + ks)
  {
  }

  lemma {:induction false} AscendingIsDistinct(ks: seq<Key>)
    requires Ascending(ks)
    ensures Distinct(ks)
  {
    forall i, j | 0 <= i < j < |ks|
      ensures ks[i] != ks[j]
    {
      LessIrreflexive(ks[i], ks[j]);
    }
  }

  lemma {:induction false} LessIrreflexive(a: Key, b: Key)
    requires Less(a, b)
    ensures a != b
  {
    LessTotal(a, b);
  }

  lemma {:induction false} SortedKeysAscend(s: set<Key>)
    ensures Ascending(SortedKeys(s)) && Distinct(SortedKeys(s)) && |SortedKeys(s)| == |s|
    decreases |s|
  {
    if s != {} {
      var least := Least(s);
      var ks := SortedKeys(s - {least});
      SortedKeysAscend(s - {least});
      forall n | 0 <= n < |ks|
        ensures Less(least, ks[n])
      {
        assert ks[n] in s - {least};
      }
      LeastFirst(least, ks);
    }
    AscendingIsDistinct(SortedKeys(s));
  }

  /** `sorted(xs, key=key)`: stable, so equal keys keep their order. */
  function SortBy<T(!new)>(xs: seq<T>, key: T -> Key): (r: seq<T>)
    ensures multiset(r) == multiset(xs)
    ensures forall x :: x in r <==> x in xs
  {
    if xs == [] then []
    else
      assert xs == xs[..|xs| - 1] + [xs[|xs| - 1]];
      Insert(SortBy(xs[..|xs| - 1], key), xs[|xs| - 1], key)
  }

  function Insert<T(!new)>(xs: seq<T>, x: T, key: T -> Key): (r: seq<T>)
    ensures multiset(r) == multiset(xs) + multiset{x}
    ensures forall y :: y in r <==> y in xs || y == x
  {
    if xs == [] || !Less(key(x), key(xs[|xs| - 1])) then xs + [x]
    else
      assert xs == xs[..|xs| - 1] + [xs[|xs| - 1]];
      Insert(xs[..|xs| - 1], x, key) + [xs[|xs| - 1]]
  }

  ghost predicate SortedBy<T>(xs: seq<T>, key: T -> Key) {
    forall i, j :: 0 <= i < j < |xs| ==> !Less(key(xs[j]), key(xs[i]))
  }

  lemma {:induction false} NotLessTransitive(a: Key, b: Key, c: Key)
    requires !Less(b, a) && !Less(c, b)
    ensures !Less(c, a)
  {
    LessTotal(a, b);
    LessTotal(b, c);
    LessTotal(a, c);
    if Less(a, b) && Less(b, c) {
      LessTransitive(a, b, c);
    }
  }

  lemma {:induction false} InsertSorted<T(!new)>(xs: seq<T>, x: T, key: T -> Key)
    requires SortedBy(xs, key)
    ensures SortedBy(Insert(xs, x, key), key)
  {
    if xs == [] {
    } else if Less(key(x), key(xs[|xs| - 1])) {
      var init, last := xs[..|xs| - 1], xs[|xs| - 1];
      InsertSorted(init, x, key);
      forall y | y in Insert(init, x, key)
        ensures !Less(key(last), key(y))
      {
        LessTotal(key(x), key(last));
      }
    } else {
      forall i | 0 <= i < |xs|
        ensures !Less(key(x), key(xs[i]))
      {
        if i < |xs| - 1 {
          NotLessTransitive(key(xs[i]), key(xs[|xs| - 1]), key(x));
        }
      }
    }
  }

  lemma {:induction false} SortBySorted<T(!new)>(xs: seq<T>, key: T -> Key)
    ensures SortedBy(SortBy(xs, key), key)
  {
    if xs != [] {
      SortBySorted(xs[..|xs| - 1], key);
      InsertSorted(SortBy(xs[..|xs| - 1], key), xs[|xs| - 1], key);
    }
  }

  /** Sorting a sorted sequence changes nothing, ties included. */
  lemma {:induction false} SortBySame<T(!new)>(xs: seq<T>, key: T -> Key)
    requires SortedBy(xs, key)
    ensures SortBy(xs, key) == xs
  {
    if xs != [] {
      SortBySame(xs[..|xs| - 1], key);
      InitLast(xs);
    }
  }

  lemma {:induction false} LastIsGreatest<T(!new)>(xs: seq<T>, x: T, key: T -> Key)
    requires SortedBy(xs, key) && x in xs
    ensures !Less(key(xs[|xs| - 1]), key(x))
  {
    LessTotal(key(x), key(x));
  }

  lemma {:induction false} SameLast<T(!new)>(xs: seq<T>, ys: seq<T>, key: T -> Key)
    requires SortedBy(xs, key) && SortedBy(ys, key) && xs != []
    requires multiset(xs) == multiset(ys)
    requires forall x, y :: x in xs && y in xs && key(x) == key(y) ==> x == y
    ensures ys != [] && xs[|xs| - 1] == ys[|ys| - 1]
  {
    assert xs[|xs| - 1] in multiset(ys);
    var a, b := xs[|xs| - 1], ys[|ys| - 1];
    assert b in multiset(xs);
    LastIsGreatest(xs, b, key);
    LastIsGreatest(ys, a, key);
    LessTotal(key(a), key(b));
  }

  lemma {:induction false} RemoveLast<T>(xs: seq<T>)
    requires xs != []
    ensures multiset(xs[..|xs| - 1]) == multiset(xs) - multiset{xs[|xs| - 1]}
    ensures forall x :: x in xs[..|xs| - 1] ==> x in xs
  {
    InitLast(xs);
  }

  /** A sorted sequence with distinct keys is fixed by the multiset of its elements. */
  lemma {:induction false} SortedUnique<T(!new)>(xs: seq<T>, ys: seq<T>, key: T -> Key)
    requires SortedBy(xs, key) && SortedBy(ys, key)
    requires multiset(xs) == multiset(ys)
    requires forall x, y :: x in xs && y in xs && key(x) == key(y) ==> x == y
    ensures xs == ys
  {
    if xs == [] {
      assert |multiset(ys)| == 0;
    } else {
      SameLast(xs, ys, key);
      RemoveLast(xs);
      RemoveLast(ys);
      SortedUnique(xs[..|xs| - 1], ys[..|ys| - 1], key);
      InitLast(xs);
      InitLast(ys);
    }
  }

  // ----- collecting in order

  /** Every element stands before all later ones; a strict order so has no repetition. */
  ghost predicate Ordered<V>(vs: seq<V>, before: (V, V) -> bool) {
    forall i, j :: 0 <= i < j < |vs| ==> before(vs[i], vs[j])
  }

  ghost predicate AllBefore<V>(vs: seq<V>, ws: seq<V>, before: (V, V) -> bool) {
    forall i, j :: 0 <= i < |vs| && 0 <= j < |ws| ==> before(vs[i], ws[j])
  }

  lemma {:induction false} OrderedAppend<V>(vs: seq<V>, ws: seq<V>, before: (V, V) -> bool)
    requires Ordered(vs, before) && Ordered(ws, before) && AllBefore(vs, ws, before)
    ensures Ordered(vs + ws, before)
  {
  }

  lemma {:induction false} BeforeOfMembers<V>(vs: seq<V>, ws: seq<V>, before: (V, V) -> bool)
    requires forall v, w :: v in vs && w in ws ==> before(v, w)
    ensures AllBefore(vs, ws, before)
  {
    assert forall i :: 0 <= i < |vs| ==> vs[i] in vs;
    assert forall j :: 0 <= j < |ws| ==> ws[j] in ws;
  }

  lemma {:induction false} MembersBefore<V>(vs: seq<V>, ws: seq<V>, before: (V, V) -> bool, v: V, w: V)
    requires AllBefore(vs, ws, before) && v in vs && w in ws
    ensures before(v, w)
  {
    var i :| 0 <= i < |vs| && vs[i] == v;
    var j :| 0 <= j < |ws| && ws[j] == w;
  }

  lemma {:induction false} CollectedBefore<T(!new), V(!new)>(
      xs: seq<T>, f: T -> seq<V>, ws: seq<V>, before: (V, V) -> bool)
    requires forall x :: x in xs ==> AllBefore(f(x), ws, before)
    ensures AllBefore(Collect(xs, f), ws, before)
  {
    CollectMembers(xs, f);
    forall v, w | v in Collect(xs, f) && w in ws
      ensures before(v, w)
    {
      var x :| x in xs && v in f(x);
      MembersBefore(f(x), ws, before, v, w);
    }
    BeforeOfMembers(Collect(xs, f), ws, before);
  }

  /** Each element contributes in order, and later ones what comes later. */
  ghost predicate ContributesInOrder<T, V>(xs: seq<T>, f: T -> seq<V>, before: (V, V) -> bool) {
    && (forall x :: x in xs ==> Ordered(f(x), before))
    && forall i, j :: 0 <= i < j < |xs| ==> AllBefore(f(xs[i]), f(xs[j]), before)
  }

  lemma {:induction false} InitInOrder<T, V>(xs: seq<T>, f: T -> seq<V>, before: (V, V) -> bool)
    requires xs != [] && ContributesInOrder(xs, f, before)
    ensures ContributesInOrder(xs[..|xs| - 1], f, before) && Ordered(f(xs[|xs| - 1]), before)
    ensures forall x :: x in xs[..|xs| - 1] ==> AllBefore(f(x), f(xs[|xs| - 1]), before)
  {
    var init := xs[..|xs| - 1];
    InitLast(xs);
    forall x | x in init
      ensures AllBefore(f(x), f(xs[|xs| - 1]), before)
    {
      var k :| 0 <= k < |init| && init[k] == x;
      assert AllBefore(f(xs[k]), f(xs[|xs| - 1]), before);
    }
    forall i, j | 0 <= i < j < |init|
      ensures AllBefore(f(init[i]), f(init[j]), before)
    {
      assert AllBefore(f(xs[i]), f(xs[j]), before);
    }
  }

  lemma {:induction false} CollectContributed<T(!new), V(!new)>(xs: seq<T>, f: T -> seq<V>, before: (V, V) -> bool)
    requires ContributesInOrder(xs, f, before)
    ensures Ordered(Collect(xs, f), before)
  {
    if xs != [] {
      var init, last := xs[..|xs| - 1], xs[|xs| - 1];
      InitInOrder(xs, f, before);
      CollectContributed(init, f, before);
      CollectedBefore(init, f, f(last), before);
      OrderedAppend(Collect(init, f), f(last), before);
    }
  }

  /** What later elements contribute comes later. */
  lemma {:induction false} CollectOrdered<T(!new), V(!new)>(xs: seq<T>, f: T -> seq<V>, before: (V, V) -> bool)
    requires forall x :: x in xs ==> Ordered(f(x), before)
    requires forall i, j :: 0 <= i < j < |xs| ==> AllBefore(f(xs[i]), f(xs[j]), before)
    ensures Ordered(Collect(xs, f), before)
  {
    CollectContributed(xs, f, before);
  }

  lemma {:induction false} OrderedIsDistinct<V>(vs: seq<V>, before: (V, V) -> bool)
    requires Ordered(vs, before) && forall i :: 0 <= i < |vs| ==> !before(vs[i], vs[i])
    ensures Distinct(vs)
  {
    forall i, j | 0 <= i < j < |vs|
      ensures vs[i] != vs[j]
    {
      assert before(vs[i], vs[j]);
    }
  }

  /** No element has a lower rank than an earlier one. */
  ghost predicate Ranked<V>(vs: seq<V>, rank: V -> nat) {
    forall i, j :: 0 <= i < j < |vs| ==> rank(vs[i]) <= rank(vs[j])
  }

  ghost predicate RanksWithin<V>(vs: seq<V>, rank: V -> nat, low: nat, high: nat) {
    forall i :: 0 <= i < |vs| ==> low <= rank(vs[i]) <= high
  }

  lemma {:induction false} RankedAppend<V>(
      vs: seq<V>, ws: seq<V>, rank: V -> nat, low: nat, middle: nat, next: nat, high: nat)
    requires Ranked(vs, rank) && RanksWithin(vs, rank, low, middle)
    requires Ranked(ws, rank) && RanksWithin(ws, rank, next, high) && low <= middle <= next <= high
    ensures Ranked(vs + ws, rank) && RanksWithin(vs + ws, rank, low, high)
  {
  }

  lemma {:induction false} RankedAlike<V>(vs: seq<V>, rank: V -> nat, r: nat)
    requires forall v :: v in vs ==> rank(v) == r
    ensures Ranked(vs, rank) && RanksWithin(vs, rank, r, r)
  {
    assert forall i :: 0 <= i < |vs| ==> vs[i] in vs;
  }

  // ----- the elements at some positions

  ghost predicate Rising(ks: seq<nat>) { forall i, j :: 0 <= i < j < |ks| ==> ks[i] < ks[j] }

  /** The elements at these positions, in order. */
  ghost predicate StandAt<T>(some: seq<T>, all: seq<T>, ks: seq<nat>) {
    && Rising(ks) && |some| == |ks|
    && forall j :: 0 <= j < |ks| ==> ks[j] < |all| && some[j] == all[ks[j]]
  }

  lemma {:induction false} StandOneMore<T>(some: seq<T>, all: seq<T>, ks: seq<nat>)
    requires all != [] && StandAt(some, all[..|all| - 1], ks)
    ensures StandAt(some, all, ks)
    ensures StandAt(some + [all[|all| - 1]], all, ks + [|all| - 1])
  {
  }

  lemma {:induction false} FilterStands<T(!new)>(xs: seq<T>, p: T -> bool) returns (ks: seq<nat>)
    ensures StandAt(Filter(xs, p), xs, ks)
    ensures forall i: nat :: i in ks <==> i < |xs| && p(xs[i])
  {
    if xs == [] {
      ks := [];
    } else {
      var n := |xs| - 1;
      ks := FilterStands(xs[..n], p);
      StandOneMore(Filter(xs[..n], p), xs, ks);
      if p(xs[n]) {
        ks := ks + [n];
      }
    }
  }

  // ----- pieces put together

  function Joined<T>(f: nat -> seq<T>, a: nat, n: nat): seq<T>
    requires a <= n
    decreases n
  {
    if n == a then [] else Joined(f, a, n - 1) + f(n - 1)
  }

  lemma {:induction false} JoinedSplit<T>(f: nat -> seq<T>, a: nat, m: nat, n: nat)
    requires a <= m <= n
    ensures Joined(f, a, n) == Joined(f, a, m) + Joined(f, m, n)
    decreases n
  {
    if m < n {
      JoinedSplit(f, a, m, n - 1);
      AppendAssociates(Joined(f, a, m), Joined(f, m, n - 1), f(n - 1));
    }
  }

  lemma {:induction false} JoinedSame<T>(f: nat -> seq<T>, g: nat -> seq<T>, a: nat, n: nat)
    requires a <= n && forall i: nat :: a <= i < n ==> f(i) == g(i)
    ensures Joined(f, a, n) == Joined(g, a, n)
    decreases n
  {
    if a < n {
      JoinedSame(f, g, a, n - 1);
    }
  }

  lemma {:induction false} JoinedSlice<T>(f: nat -> seq<T>, xs: seq<T>, a: nat, n: nat)
    requires a <= n <= |xs| && forall i: nat :: a <= i < n ==> f(i) == [xs[i]]
    ensures Joined(f, a, n) == xs[a..n]
    decreases n
  {
    if a < n {
      JoinedSlice(f, xs, a, n - 1);
      SliceStep(xs, a, n - 1);
    }
  }

  lemma {:induction false} JoinedOne<T>(f: nat -> seq<T>, i: nat)
    ensures Joined(f, i, i + 1) == f(i)
  {
    assert Joined(f, i, i) == [];
  }

  /** A piece more before the first one. */
  lemma {:induction false} JoinedBehind<T>(f: nat -> seq<T>, g: nat -> seq<T>, above: seq<T>, z: nat, n: nat)
    requires z < n && g(z) == above + f(z) && forall i: nat :: z < i < n ==> g(i) == f(i)
    ensures Joined(g, z, n) == above + Joined(f, z, n)
    decreases n
  {
    if n == z + 1 {
      JoinedOne(f, z);
      JoinedOne(g, z);
    } else {
      JoinedBehind(f, g, above, z, n - 1);
      AppendAssociates(above, Joined(f, z, n - 1), f(n - 1));
    }
  }

  lemma {:induction false} SliceStep<T>(xs: seq<T>, a: nat, n: nat)
    requires a <= n < |xs|
    ensures xs[a..n + 1] == xs[a..n] + [xs[n]]
  {
  }
}
