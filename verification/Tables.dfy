/** Dictionaries that remember the order their keys arrived in, sums over sequences, and the
    stable sort used wherever a listing is put in order. None of it knows anything about money. */
module Tables {

  datatype Table<K(==), V> = Table(order: seq<K>, at: map<K, V>)

  ghost predicate Distinct<T(!new)>(s: seq<T>) {
    forall i, j :: 0 <= i < j < |s| ==> s[i] != s[j]
  }

  ghost predicate Ok<K(!new), V>(t: Table<K, V>) {
    && Distinct(t.order)
    && forall k :: k in t.order <==> k in t.at
  }

  function Empty<K(==), V>(): Table<K, V> { Table([], map[]) }

  /** A key keeps the place it first arrived at. */
  function Put<K(==), V>(t: Table<K, V>, k: K, v: V): Table<K, V> {
    Table(if k in t.at then t.order else t.order + [k], t.at[k := v])
  }

  lemma PutKeepsOk<K(!new), V>(t: Table<K, V>, k: K, v: V)
    requires Ok(t)
    ensures Ok(Put(t, k, v))
  {
  }

  // ---------------------------------------------------------------- sums

  function Total<T>(f: T -> real, s: seq<T>): real {
    if s == [] then 0.0 else Total(f, s[..|s| - 1]) + f(s[|s| - 1])
  }

  lemma {:induction false} TotalConcat<T>(f: T -> real, a: seq<T>, b: seq<T>)
    ensures Total(f, a + b) == Total(f, a) + Total(f, b)
    decreases |b|
  {
    if b == [] {
      assert a + b == a;
    } else {
      TotalConcat(f, a, b[..|b| - 1]);
      assert (a + b)[..|a + b| - 1] == a + b[..|b| - 1];
    }
  }

  lemma TotalOne<T>(f: T -> real, x: T)
    ensures Total(f, [x]) == f(x)
  {
    assert [x][..0] == [];
  }

  lemma {:induction false} TotalSame<T>(f: T -> real, g: T -> real, s: seq<T>)
    requires forall i :: 0 <= i < |s| ==> f(s[i]) == g(s[i])
    ensures Total(f, s) == Total(g, s)
    decreases |s|
  {
    if s != [] {
      TotalSame(f, g, s[..|s| - 1]);
    }
  }

  lemma {:induction false} TotalPlus<T>(f: T -> real, g: T -> real, h: T -> real, s: seq<T>)
    requires forall i :: 0 <= i < |s| ==> f(s[i]) + g(s[i]) == h(s[i])
    ensures Total(f, s) + Total(g, s) == Total(h, s)
    decreases |s|
  {
    if s != [] {
      TotalPlus(f, g, h, s[..|s| - 1]);
    }
  }

  /** Changing the value of one key in a duplicate-free listing moves the sum by the change. */
  lemma {:induction false} TotalChanged<T(!new)>(f: T -> real, g: T -> real, s: seq<T>, k: T)
    requires Distinct(s) && k in s
    requires forall x :: x in s && x != k ==> f(x) == g(x)
    ensures Total(g, s) == Total(f, s) + g(k) - f(k)
    decreases |s|
  {
    var init, last := s[..|s| - 1], s[|s| - 1];
    assert s == init + [last];
    if last == k {
      TotalSame(f, g, init);
    } else {
      TotalChanged(f, g, init, k);
    }
  }

  function Without<T>(s: seq<T>, i: nat): seq<T>
    requires i < |s|
  {
    s[..i] + s[i + 1..]
  }

  lemma WithoutOne<T>(s: seq<T>, i: nat)
    requires i < |s|
    ensures multiset(Without(s, i)) == multiset(s) - multiset{s[i]}
  {
    assert s == s[..i] + [s[i]] + s[i + 1..];
  }

  /** Where the last element of a listing sits in a permutation of it. */
  lemma Locate<T>(a: seq<T>, b: seq<T>) returns (i: nat)
    requires a != [] && multiset(a) == multiset(b)
    ensures i < |b| && b[i] == a[|a| - 1]
    ensures multiset(a[..|a| - 1]) == multiset(Without(b, i))
  {
    var n := |a| - 1;
    WithoutOne(a, n);
    assert Without(a, n) == a[..n];
    assert a[n] in multiset(b);
    i :| 0 <= i < |b| && b[i] == a[n];
    WithoutOne(b, i);
  }

  lemma SameMembers<T(!new)>(a: seq<T>, b: seq<T>)
    requires multiset(a) == multiset(b)
    ensures forall x :: x in a <==> x in b
  {
    forall x ensures x in a <==> x in b {
      assert x in a <==> x in multiset(a);
      assert x in b <==> x in multiset(b);
    }
  }

  lemma NothingLeft<T>(a: seq<T>, b: seq<T>)
    requires multiset(a) == multiset(b) && a == []
    ensures b == []
  {
    assert |b| == |multiset(b)| == 0;
  }

  lemma TotalWithout<T>(f: T -> real, s: seq<T>, i: nat)
    requires i < |s|
    ensures Total(f, s) == Total(f, Without(s, i)) + f(s[i])
  {
    hide Total;
    assert s == s[..i] + ([s[i]] + s[i + 1..]);
    TotalConcat(f, s[..i], [s[i]] + s[i + 1..]);
    TotalConcat(f, [s[i]], s[i + 1..]);
    TotalConcat(f, s[..i], s[i + 1..]);
    TotalOne(f, s[i]);
  }

  /** A sum does not depend on the order of its terms. */
  lemma {:induction false} TotalPermuted<T>(f: T -> real, a: seq<T>, b: seq<T>)
    requires multiset(a) == multiset(b)
    ensures Total(f, a) == Total(f, b)
    decreases |a|
  {
    if a == [] {
      NothingLeft(a, b);
    } else {
      hide Without;
      var i := Locate(a, b);
      TotalPermuted(f, a[..|a| - 1], Without(b, i));
      TotalWithout(f, b, i);
    }
  }

  /** Duplicate-free listings of the same elements are permutations of each other. */
  lemma {:induction false} SameElements<T(!new)>(a: seq<T>, b: seq<T>)
    requires Distinct(a) && Distinct(b)
    requires forall x :: x in a <==> x in b
    ensures multiset(a) == multiset(b)
  {
    forall x ensures multiset(a)[x] == multiset(b)[x] {
      DistinctCount(a, x);
      DistinctCount(b, x);
    }
  }

  lemma {:induction false} DistinctCount<T(!new)>(s: seq<T>, x: T)
    requires Distinct(s)
    ensures multiset(s)[x] == if x in s then 1 else 0
    decreases |s|
  {
    if s != [] {
      var n := |s| - 1;
      assert s == s[..n] + [s[n]];
      DistinctCount(s[..n], x);
    }
  }

  lemma DistinctConcat<T(!new)>(a: seq<T>, b: seq<T>)
    requires Distinct(a) && Distinct(b) && forall x :: x in a ==> x !in b
    ensures Distinct(a + b)
  {
    forall i, j | 0 <= i < j < |a + b| ensures (a + b)[i] != (a + b)[j] {
      if i < |a| <= j {
        assert a[i] in a && b[j - |a|] in b;
      }
    }
  }

  lemma DistinctPermuted<T(!new)>(a: seq<T>, b: seq<T>)
    requires Distinct(a) && multiset(a) == multiset(b)
    ensures Distinct(b)
  {
    forall i, j | 0 <= i < j < |b| ensures b[i] != b[j] {
      assert b == b[..j] + b[j..] && b[i] in b[..j] && b[j] in b[j..];
      DistinctCount(a, b[j]);
    }
  }

  // ---------------------------------------------------------------- concatenated listings

  function Flatten<K, T>(f: K -> seq<T>, keys: seq<K>): seq<T> {
    if keys == [] then [] else Flatten(f, keys[..|keys| - 1]) + f(keys[|keys| - 1])
  }

  lemma {:induction false} FlattenConcat<K, T>(f: K -> seq<T>, a: seq<K>, b: seq<K>)
    ensures Flatten(f, a + b) == Flatten(f, a) + Flatten(f, b)
    decreases |b|
  {
    if b == [] {
      assert a + b == a;
    } else {
      var n, all := |b| - 1, a + b;
      FlattenConcat(f, a, b[..n]);
      assert all[..|all| - 1] == a + b[..n] && all[|all| - 1] == b[n];
      assert Flatten(f, all) == Flatten(f, a + b[..n]) + f(b[n]);
    }
  }

  lemma FlattenOne<K, T>(f: K -> seq<T>, k: K)
    ensures Flatten(f, [k]) == f(k)
  {
    assert [k][..0] == [];
  }

  lemma FlattenAround<K, T>(f: K -> seq<T>, a: seq<K>, k: K, b: seq<K>)
    ensures Flatten(f, a + [k]) == Flatten(f, a) + f(k)
    ensures Flatten(f, a + [k] + b) == Flatten(f, a) + f(k) + Flatten(f, b)
  {
    hide Flatten;
    FlattenConcat(f, a, [k]);
    FlattenOne(f, k);
    FlattenConcat(f, a + [k], b);
  }

  lemma FlattenAt<K, T>(f: K -> seq<T>, keys: seq<K>, n: nat)
    requires n < |keys|
    ensures Flatten(f, keys[..n + 1]) == Flatten(f, keys[..n]) + f(keys[n])
    ensures Flatten(f, keys) == Flatten(f, keys[..n]) + f(keys[n]) + Flatten(f, keys[n + 1..])
  {
    hide Flatten;
    FlattenAround(f, keys[..n], keys[n], keys[n + 1..]);
    assert keys[..n] + [keys[n]] == keys[..n + 1];
    assert keys[..n] + [keys[n]] + keys[n + 1..] == keys;
  }

  lemma FlattenWithout<K, T>(f: K -> seq<T>, s: seq<K>, i: nat)
    requires i < |s|
    ensures multiset(Flatten(f, s)) == multiset(Flatten(f, Without(s, i))) + multiset(f(s[i]))
  {
    hide Flatten;
    assert s == s[..i] + ([s[i]] + s[i + 1..]);
    FlattenConcat(f, s[..i], [s[i]] + s[i + 1..]);
    FlattenConcat(f, [s[i]], s[i + 1..]);
    FlattenConcat(f, s[..i], s[i + 1..]);
    FlattenOne(f, s[i]);
  }

  /** Permuting the keys permutes the listing, even if each key's own listing is permuted too. */
  lemma {:induction false} FlattenPermuted<K, T>(f: K -> seq<T>, g: K -> seq<T>, a: seq<K>, b: seq<K>)
    requires multiset(a) == multiset(b)
    requires forall i :: 0 <= i < |a| ==> multiset(f(a[i])) == multiset(g(a[i]))
    ensures multiset(Flatten(f, a)) == multiset(Flatten(g, b))
    decreases |a|
  {
    if a == [] {
      NothingLeft(a, b);
    } else {
      hide Without;
      var i := Locate(a, b);
      FlattenPermuted(f, g, a[..|a| - 1], Without(b, i));
      FlattenWithout(g, b, i);
    }
  }

  lemma {:induction false} TotalFlatten<K, T>(h: T -> real, f: K -> seq<T>, g: K -> real, keys: seq<K>)
    requires forall k :: k in keys ==> Total(h, f(k)) == g(k)
    ensures Total(h, Flatten(f, keys)) == Total(g, keys)
    decreases |keys|
  {
    if keys != [] {
      var n := |keys| - 1;
      TotalFlatten(h, f, g, keys[..n]);
      TotalConcat(h, Flatten(f, keys[..n]), f(keys[n]));
    }
  }

  lemma {:induction false} FlattenFlatten<K, L, T>(g: L -> seq<T>, f: K -> seq<L>, gf: K -> seq<T>, keys: seq<K>)
    requires forall i :: 0 <= i < |keys| ==> gf(keys[i]) == Flatten(g, f(keys[i]))
    ensures Flatten(g, Flatten(f, keys)) == Flatten(gf, keys)
    decreases |keys|
  {
    if keys != [] {
      var n := |keys| - 1;
      FlattenFlatten(g, f, gf, keys[..n]);
      FlattenConcat(g, Flatten(f, keys[..n]), f(keys[n]));
    }
  }

  lemma {:induction false} InFlatten<K, T>(f: K -> seq<T>, keys: seq<K>, x: T)
    ensures x in Flatten(f, keys) <==> exists k :: k in keys && x in f(k)
    decreases |keys|
  {
    if keys != [] {
      var n := |keys| - 1;
      InFlatten(f, keys[..n], x);
      assert keys == keys[..n] + [keys[n]];
    }
  }

  // ---------------------------------------------------------------- sorting

  /** Puts x after everything it does not come before: equal elements keep their order. */
  function Insert<T>(before: (T, T) -> bool, s: seq<T>, x: T): (r: seq<T>)
    ensures multiset(r) == multiset(s) + multiset{x}
  {
    if s == [] then [x]
    else if before(x, s[|s| - 1]) then
      assert s == s[..|s| - 1] + [s[|s| - 1]];
      Insert(before, s[..|s| - 1], x) + [s[|s| - 1]]
    else s + [x]
  }

  function Sort<T>(before: (T, T) -> bool, s: seq<T>): (r: seq<T>)
    ensures multiset(r) == multiset(s)
  {
    if s == [] then []
    else
      assert s == s[..|s| - 1] + [s[|s| - 1]];
      Insert(before, Sort(before, s[..|s| - 1]), s[|s| - 1])
  }

  ghost predicate Sorted<T>(before: (T, T) -> bool, s: seq<T>) {
    forall i, j :: 0 <= i < j < |s| ==> !before(s[j], s[i])
  }

  ghost predicate Orders<T(!new)>(before: (T, T) -> bool) {
    && (forall a :: !before(a, a))
    && (forall a, b, c :: before(a, b) && before(b, c) ==> before(a, c))
    && (forall a, b, c :: before(a, c) ==> before(a, b) || before(b, c))
  }

  lemma OrdersAt<T(!new)>(before: (T, T) -> bool, a: T, b: T, c: T)
    requires Orders(before)
    ensures !before(a, a) && (before(a, b) && before(b, c) ==> before(a, c))
    ensures before(a, c) ==> before(a, b) || before(b, c)
  {
  }

  lemma {:induction false} InsertKeepsSorted<T(!new)>(before: (T, T) -> bool, s: seq<T>, x: T)
    requires Orders(before) && Sorted(before, s)
    ensures Sorted(before, Insert(before, s, x))
    decreases |s|
  {
    hide Orders;
    if s != [] {
      var init, last := s[..|s| - 1], s[|s| - 1];
      OrdersAt(before, x, last, x);
      if before(x, last) {
        InsertKeepsSorted(before, init, x);
        var r := Insert(before, init, x);
        forall i | 0 <= i < |r| ensures !before(last, r[i]) {
          assert r[i] in multiset(r);
          assert r[i] == x || r[i] in init;
        }
      } else {
        forall i | 0 <= i < |s| ensures !before(x, s[i]) {
          OrdersAt(before, x, last, s[i]);
          assert i == |s| - 1 || !before(last, s[i]);
        }
      }
    }
  }

  lemma {:induction false} SortSorts<T(!new)>(before: (T, T) -> bool, s: seq<T>)
    requires Orders(before)
    ensures Sorted(before, Sort(before, s))
    decreases |s|
  {
    if s != [] {
      SortSorts(before, s[..|s| - 1]);
      InsertKeepsSorted(before, Sort(before, s[..|s| - 1]), s[|s| - 1]);
    }
  }

  /** Some occurrence of x stands before some occurrence of y. */
  ghost predicate StandsBefore<T>(s: seq<T>, x: T, y: T) {
    exists i, j :: 0 <= i < j < |s| && s[i] == x && s[j] == y
  }

  /** Inserting keeps two elements in their order. */
  lemma {:induction false} InsertKeepsOrder<T>(before: (T, T) -> bool, s: seq<T>, z: T, x: T, y: T)
    requires StandsBefore(s, x, y)
    ensures StandsBefore(Insert(before, s, z), x, y)
    decreases |s|
  {
    var i, j :| 0 <= i < j < |s| && s[i] == x && s[j] == y;
    var n := |s| - 1;
    var r := Insert(before, s, z);
    if before(z, s[n]) {
      var init := Insert(before, s[..n], z);
      if j < n {
        assert s[..n][i] == x && s[..n][j] == y;
        InsertKeepsOrder(before, s[..n], z, x, y);
        var a, b :| 0 <= a < b < |init| && init[a] == x && init[b] == y;
        assert r[a] == x && r[b] == y;
      } else {
        assert s[..n][i] in multiset(init);
        var a :| 0 <= a < |init| && init[a] == x;
        assert r[a] == x && r[|r| - 1] == y;
      }
    } else {
      assert r[i] == x && r[j] == y;
    }
  }

  /** What does not come before x is put behind it. */
  lemma {:induction false} InsertGoesBehind<T>(before: (T, T) -> bool, s: seq<T>, x: T, z: T)
    requires x in s && !before(z, x)
    ensures StandsBefore(Insert(before, s, z), x, z)
    decreases |s|
  {
    var n := |s| - 1;
    var r := Insert(before, s, z);
    if before(z, s[n]) {
      assert s == s[..n] + [s[n]];
      InsertGoesBehind(before, s[..n], x, z);
      var init := Insert(before, s[..n], z);
      var a, b :| 0 <= a < b < |init| && init[a] == x && init[b] == z;
      assert r[a] == x && r[b] == z;
    } else {
      var i :| 0 <= i < |s| && s[i] == x;
      assert r[i] == x && r[|r| - 1] == z;
    }
  }

  lemma EitherBehindOrLast<T>(s: seq<T>, x: T, y: T)
    requires StandsBefore(s, x, y)
    ensures s != []
    ensures StandsBefore(s[..|s| - 1], x, y) || (s[|s| - 1] == y && x in s[..|s| - 1])
  {
    var i, j :| 0 <= i < j < |s| && s[i] == x && s[j] == y;
    var init := s[..|s| - 1];
    assert init[i] == x;
    if j < |init| {
      assert init[j] == y;
    }
  }

  lemma StillIn<T>(s: seq<T>, r: seq<T>, x: T)
    requires multiset(s) == multiset(r) && x in s
    ensures x in r
  {
    assert x in multiset(s);
  }

  /** Sorting is stable: of two elements that tie, the first one listed stays first. */
  lemma {:induction false} SortIsStable<T>(before: (T, T) -> bool, s: seq<T>, x: T, y: T)
    requires StandsBefore(s, x, y) && !before(y, x)
    ensures StandsBefore(Sort(before, s), x, y)
    decreases |s|
  {
    hide StandsBefore, Insert;
    EitherBehindOrLast(s, x, y);
    var init, last := s[..|s| - 1], s[|s| - 1];
    var r := Sort(before, init);
    if StandsBefore(init, x, y) {
      SortIsStable(before, init, x, y);
      InsertKeepsOrder(before, r, last, x, y);
    } else {
      StillIn(init, r, x);
      InsertGoesBehind(before, r, x, y);
    }
  }

  /** The element at i brought to the front. */
  function ToFront<T>(s: seq<T>, i: nat): (r: seq<T>)
    requires i < |s|
    ensures multiset(r) == multiset(s)
  {
    assert s == s[..i] + [s[i]] + s[i + 1..];
    [s[i]] + s[..i] + s[i + 1..]
  }

  /** Some occurrence of x has nothing ahead of it but what comes before it. */
  ghost predicate Heads<T>(before: (T, T) -> bool, s: seq<T>, x: T) {
    exists i :: 0 <= i < |s| && s[i] == x && forall j :: 0 <= j < i ==> before(s[j], x)
  }

  lemma {:induction false} InsertKeepsHead<T>(before: (T, T) -> bool, s: seq<T>, x: T, z: T)
    requires Heads(before, s, x)
    ensures Heads(before, Insert(before, s, z), x)
    decreases |s|
  {
    var i :| 0 <= i < |s| && s[i] == x && forall j :: 0 <= j < i ==> before(s[j], x);
    var n := |s| - 1;
    var r := Insert(before, s, z);
    if before(z, s[n]) {
      var init := Insert(before, s[..n], z);
      if i < n {
        assert s[..n][i] == x && forall j :: 0 <= j < i ==> before(s[..n][j], x);
        InsertKeepsHead(before, s[..n], x, z);
        var k :| 0 <= k < |init| && init[k] == x && forall j :: 0 <= j < k ==> before(init[j], x);
        assert r[k] == x && forall j :: 0 <= j < k ==> before(r[j], x);
      } else {
        forall j | 0 <= j < |init| ensures before(init[j], x) {
          assert init[j] in multiset(init);
          assert init[j] == z || init[j] in s[..n];
        }
        assert r[|init|] == x;
      }
    } else {
      assert r[i] == x && forall j :: 0 <= j < i ==> before(r[j], x);
    }
  }

  /** Sorted, the first element listed is ahead of everything that ties with it. */
  lemma {:induction false} SortKeepsHead<T>(before: (T, T) -> bool, s: seq<T>)
    requires s != []
    ensures Heads(before, Sort(before, s), s[0])
    decreases |s|
  {
    var n := |s| - 1;
    if n == 0 {
      assert s[..0] == [] && Sort(before, s) == [s[0]];
      assert Sort(before, s)[0] == s[0];
    } else {
      SortKeepsHead(before, s[..n]);
      InsertKeepsHead(before, Sort(before, s[..n]), s[0], s[n]);
    }
  }

  lemma {:induction false} InsertAgrees<T(!new)>(before: (T, T) -> bool, full: (T, T) -> bool, s: seq<T>, x: T)
    requires forall y :: y in s ==> (before(x, y) <==> full(x, y))
    ensures Insert(before, s, x) == Insert(full, s, x)
    decreases |s|
  {
    if s != [] {
      InsertAgrees(before, full, s[..|s| - 1], x);
    }
  }

  /** Sorting looks only at whether a later element comes before an earlier one. */
  lemma {:induction false} SortAgrees<T(!new)>(before: (T, T) -> bool, full: (T, T) -> bool, s: seq<T>)
    requires forall i, j :: 0 <= i < j < |s| ==> (before(s[j], s[i]) <==> full(s[j], s[i]))
    ensures Sort(before, s) == Sort(full, s)
    decreases |s|
  {
    if s != [] {
      var n := |s| - 1;
      SortAgrees(before, full, s[..n]);
      SameMembers(Sort(before, s[..n]), s[..n]);
      InsertAgrees(before, full, Sort(before, s[..n]), s[n]);
    }
  }

  /** No two different elements of s tie. */
  ghost predicate NoTies<T(!new)>(before: (T, T) -> bool, s: seq<T>) {
    forall a, b :: a in s && b in s && a != b ==> before(a, b) || before(b, a)
  }

  lemma {:induction false} SortedUnique<T(!new)>(before: (T, T) -> bool, a: seq<T>, b: seq<T>)
    requires Orders(before) && Sorted(before, a) && Sorted(before, b)
    requires multiset(a) == multiset(b) && NoTies(before, a)
    ensures a == b
    decreases |a|
  {
    if a == [] {
      NothingLeft(a, b);
    } else {
      LastAgrees(before, a, b);
      DropLast(a, b);
      var n, m := |a| - 1, |b| - 1;
      assert NoTies(before, a[..n]);
      SortedUnique(before, a[..n], b[..m]);
      assert a == a[..n] + [a[n]] && b == b[..m] + [b[m]];
    }
  }

  lemma DropLast<T>(a: seq<T>, b: seq<T>)
    requires a != [] && b != [] && multiset(a) == multiset(b) && a[|a| - 1] == b[|b| - 1]
    ensures multiset(a[..|a| - 1]) == multiset(b[..|b| - 1])
  {
    WithoutOne(a, |a| - 1);
    WithoutOne(b, |b| - 1);
    assert Without(a, |a| - 1) == a[..|a| - 1] && Without(b, |b| - 1) == b[..|b| - 1];
  }

  lemma LastAgrees<T(!new)>(before: (T, T) -> bool, a: seq<T>, b: seq<T>)
    requires Sorted(before, a) && Sorted(before, b) && a != [] && b != []
    requires multiset(a) == multiset(b) && NoTies(before, a)
    ensures a[|a| - 1] == b[|b| - 1]
  {
    var x, y := a[|a| - 1], b[|b| - 1];
    assert y in multiset(a) && x in multiset(b);
    var i :| 0 <= i < |a| && a[i] == y;
    var j :| 0 <= j < |b| && b[j] == x;
    assert x == y || !before(x, y);
    assert x == y || !before(y, x);
  }

  /** Where nothing ties, sorting forgets the order things arrived in. */
  lemma SortForgetsOrder<T(!new)>(before: (T, T) -> bool, a: seq<T>, b: seq<T>)
    requires Orders(before) && multiset(a) == multiset(b) && NoTies(before, a)
    ensures Sort(before, a) == Sort(before, b)
  {
    SortSorts(before, a);
    SortSorts(before, b);
    SameMembers(Sort(before, a), a);
    SortedUnique(before, Sort(before, a), Sort(before, b));
  }
}
