/** Which of two elements a listing reaches first, and exactly when stable sorting forgets it. */
module ArrivalOrder {
  import opened Tables

  // ---------------------------------------------------------------- what a listing reaches first

  /** Some p stands ahead of every q. */
  ghost predicate Reaches<T>(s: seq<T>, p: T -> bool, q: T -> bool) {
    exists i :: 0 <= i < |s| && p(s[i]) && forall j :: 0 <= j <= i ==> !q(s[j])
  }

  /** There is no q. */
  ghost predicate Lacks<T>(s: seq<T>, q: T -> bool) { forall i :: 0 <= i < |s| ==> !q(s[i]) }

  ghost function Is<T>(x: T): T -> bool { (y: T) => y == x }

  /** x stands ahead of every y. */
  ghost predicate Ahead<T>(s: seq<T>, x: T, y: T) { Reaches(s, Is(x), Is(y)) }

  lemma NotBoth<T>(s: seq<T>, p: T -> bool, q: T -> bool)
    requires Reaches(s, p, q)
    ensures !Reaches(s, q, p)
  {
  }

  lemma {:induction false} OneIsReached<T>(s: seq<T>, i: nat, p: T -> bool, q: T -> bool)
    requires i < |s| && (p(s[i]) || q(s[i]))
    requires forall j :: 0 <= j < |s| ==> !(p(s[j]) && q(s[j]))
    ensures Reaches(s, p, q) || Reaches(s, q, p)
    decreases i
  {
    if j: nat :| j < i && (p(s[j]) || q(s[j])) {
      OneIsReached(s, j, p, q);
    } else if p(s[i]) {
      assert forall j :: 0 <= j <= i ==> !q(s[j]);
    } else {
      assert forall j :: 0 <= j <= i ==> !p(s[j]);
    }
  }

  /** Of two elements one is ahead of the other. */
  lemma OneIsAhead<T>(s: seq<T>, x: T, y: T)
    requires x in s && x != y
    ensures Ahead(s, x, y) <==> !Ahead(s, y, x)
  {
    var i :| 0 <= i < |s| && s[i] == x;
    OneIsReached(s, i, Is(x), Is(y));
    if Ahead(s, x, y) {
      NotBoth(s, Is(x), Is(y));
    }
  }

  lemma AheadIsIn<T>(s: seq<T>, x: T, y: T)
    requires Ahead(s, x, y)
    ensures x in s && x != y
  {
  }

  lemma AheadOfAbsent<T>(s: seq<T>, x: T, y: T)
    requires x in s && y !in s
    ensures Ahead(s, x, y)
  {
    var i :| 0 <= i < |s| && s[i] == x;
    assert Is(x)(s[i]) && forall j :: 0 <= j <= i ==> !Is(y)(s[j]);
  }

  lemma ReachesNoOther<T>(s: seq<T>, p: T -> bool, q: T -> bool)
    requires !Lacks(s, p) && Lacks(s, q)
    ensures Reaches(s, p, q)
  {
  }

  lemma AheadStandsBefore<T(!new)>(s: seq<T>, x: T, y: T)
    requires Distinct(s) && x in s && y in s && x != y
    ensures Ahead(s, x, y) <==> StandsBefore(s, x, y)
  {
    if Ahead(s, x, y) {
      var i :| 0 <= i < |s| && Is(x)(s[i]) && forall j :: 0 <= j <= i ==> !Is(y)(s[j]);
      var k :| 0 <= k < |s| && s[k] == y;
      assert Is(y)(s[k]);
    }
    if StandsBefore(s, x, y) {
      var i, k :| 0 <= i < k < |s| && s[i] == x && s[k] == y;
      assert Is(x)(s[i]) && forall j :: 0 <= j <= i ==> !Is(y)(s[j]);
    }
  }

  // ---------------------------------------------------------------- concatenated listings

  lemma ReachesInFront<T>(a: seq<T>, b: seq<T>, p: T -> bool, q: T -> bool)
    requires Reaches(a, p, q)
    ensures Reaches(a + b, p, q)
  {
    var i :| 0 <= i < |a| && p(a[i]) && forall j :: 0 <= j <= i ==> !q(a[j]);
    assert p((a + b)[i]) && forall j :: 0 <= j <= i ==> !q((a + b)[j]);
  }

  lemma ReachesBehind<T>(a: seq<T>, b: seq<T>, p: T -> bool, q: T -> bool)
    requires Reaches(b, p, q) && Lacks(a, q)
    ensures Reaches(a + b, p, q)
  {
    var i :| 0 <= i < |b| && p(b[i]) && forall j :: 0 <= j <= i ==> !q(b[j]);
    forall j | 0 <= j <= |a| + i ensures !q((a + b)[j]) {
      assert (a + b)[j] == if j < |a| then a[j] else b[j - |a|];
    }
    assert p((a + b)[|a| + i]);
  }

  lemma ReachedInEither<T>(a: seq<T>, b: seq<T>, p: T -> bool, q: T -> bool)
    requires Reaches(a + b, p, q)
    ensures Reaches(a, p, q) || (Reaches(b, p, q) && Lacks(a, q))
  {
    var s := a + b;
    var i :| 0 <= i < |s| && p(s[i]) && forall j :: 0 <= j <= i ==> !q(s[j]);
    if i < |a| {
      assert forall j :: 0 <= j <= i ==> a[j] == s[j];
      assert p(a[i]) && forall j :: 0 <= j <= i ==> !q(a[j]);
    } else {
      assert p(b[i - |a|]) && forall j :: 0 <= j <= i - |a| ==> b[j] == s[|a| + j];
      assert forall j :: 0 <= j < |a| ==> a[j] == s[j];
    }
  }

  lemma ReachesPush<T>(s: seq<T>, x: T, p: T -> bool, q: T -> bool)
    ensures Reaches(s + [x], p, q)
       <==> Reaches(s, p, q) || (p(x) && !q(x) && Lacks(s, q))
  {
    hide Reaches;
    if Reaches(s + [x], p, q) {
      ReachedInEither(s, [x], p, q);
      ReachesOne(x, p, q);
    }
    if Reaches(s, p, q) {
      ReachesInFront(s, [x], p, q);
    } else if p(x) && !q(x) && Lacks(s, q) {
      ReachesOne(x, p, q);
      ReachesBehind(s, [x], p, q);
    }
  }

  lemma ReachesOne<T>(x: T, p: T -> bool, q: T -> bool)
    ensures Reaches([x], p, q) <==> p(x) && !q(x)
  {
    assert [x][0] == x;
  }

  lemma ReachesWithFirst<K, T>(f: K -> seq<T>, keys: seq<K>, p: T -> bool, q: T -> bool)
    requires keys != [] && Reaches(f(keys[0]), p, q)
    ensures Reaches(Flatten(f, keys), p, q)
  {
    assert keys == [keys[0]] + keys[1..];
    FlattenConcat(f, [keys[0]], keys[1..]);
    FlattenOne(f, keys[0]);
    ReachesInFront(f(keys[0]), Flatten(f, keys[1..]), p, q);
  }

  /** What a concatenated listing reaches first, some part of it reaches first. */
  lemma {:induction false} ReachedInSome<K, T>(f: K -> seq<T>, keys: seq<K>, p: T -> bool, q: T -> bool) returns (k: K)
    requires Reaches(Flatten(f, keys), p, q)
    ensures k in keys && Reaches(f(k), p, q)
    decreases |keys|
  {
    hide Reaches;
    if keys == [] {
      NothingReached(Flatten(f, keys), p, q);
    }
    var n := |keys| - 1;
    ReachedInEither(Flatten(f, keys[..n]), f(keys[n]), p, q);
    if Reaches(f(keys[n]), p, q) {
      k := keys[n];
    } else {
      k := ReachedInSome(f, keys[..n], p, q);
    }
  }

  lemma NothingReached<T>(s: seq<T>, p: T -> bool, q: T -> bool)
    requires Reaches(s, p, q)
    ensures s != []
  {
  }

  /** Two elements found under one key only come in the order they have there. */
  lemma AheadAtHome<K, T>(f: K -> seq<T>, keys: seq<K>, k: K, x: T, y: T)
    requires k in keys && x in f(k) && forall m :: m in keys && (x in f(m) || y in f(m)) ==> m == k
    ensures Ahead(Flatten(f, keys), x, y) <==> Ahead(f(k), x, y)
  {
    hide Reaches;
    InFlatten(f, keys, x);
    if Ahead(Flatten(f, keys), x, y) {
      var m := ReachedInSome(f, keys, Is(x), Is(y));
      AheadIsIn(f(m), x, y);
    } else if Ahead(f(k), x, y) {
      AheadIsIn(f(k), x, y);
      OneIsAhead(Flatten(f, keys), x, y);
      var m := ReachedInSome(f, keys, Is(y), Is(x));
      AheadIsIn(f(m), y, x);
      NotBoth(f(k), Is(x), Is(y));
    }
  }

  /** Two listings that agree place by place on p and q reach the same one first. */
  lemma ReachesAlike<S, T>(a: seq<S>, p: S -> bool, q: S -> bool, b: seq<T>, u: T -> bool, v: T -> bool)
    requires |a| == |b| && forall i :: 0 <= i < |a| ==> (p(a[i]) <==> u(b[i])) && (q(a[i]) <==> v(b[i]))
    ensures Reaches(a, p, q) <==> Reaches(b, u, v)
  {
    if Reaches(a, p, q) {
      var i :| 0 <= i < |a| && p(a[i]) && forall j :: 0 <= j <= i ==> !q(a[j]);
      assert u(b[i]) && forall j :: 0 <= j <= i ==> !v(b[j]);
    }
    if Reaches(b, u, v) {
      var i :| 0 <= i < |b| && u(b[i]) && forall j :: 0 <= j <= i ==> !v(b[j]);
      assert p(a[i]) && forall j :: 0 <= j <= i ==> !q(a[j]);
    }
  }

  lemma {:induction false} FlattenDistinct<K(!new), T(!new)>(f: K -> seq<T>, keys: seq<K>)
    requires Distinct(keys) && forall k :: k in keys ==> Distinct(f(k))
    requires forall k, m, x :: k in keys && m in keys && x in f(k) && x in f(m) ==> k == m
    ensures Distinct(Flatten(f, keys))
    decreases |keys|
  {
    if keys != [] {
      hide Distinct;
      var n := |keys| - 1;
      DistinctLast(keys);
      FlattenDistinct(f, keys[..n]);
      forall x | x in Flatten(f, keys[..n]) ensures x !in f(keys[n]) {
        InFlatten(f, keys[..n], x);
      }
      DistinctConcat(Flatten(f, keys[..n]), f(keys[n]));
    }
  }

  lemma DistinctLast<T(!new)>(s: seq<T>)
    requires Distinct(s) && s != []
    ensures Distinct(s[..|s| - 1]) && s[|s| - 1] !in s[..|s| - 1]
  {
  }

  // ---------------------------------------------------------------- what sorting forgets

  ghost predicate Tied<T>(before: (T, T) -> bool, x: T, y: T) { !before(x, y) && !before(y, x) }

  /** Elements that tie come in one order in both listings. */
  ghost predicate TiesKept<T(!new)>(before: (T, T) -> bool, a: seq<T>, b: seq<T>) {
    forall x, y :: x in a && y in a && Tied(before, x, y) && Ahead(a, x, y) ==> Ahead(b, x, y)
  }

  /** Parts that share nothing keep their ties in order if each part does. */
  lemma PartsKeepTies<T(!new)>(before: (T, T) -> bool, a: seq<T>, b: seq<T>, c: seq<T>, d: seq<T>)
    requires multiset(a) == multiset(c) && multiset(b) == multiset(d) && forall x :: x in a ==> x !in b
    requires TiesKept(before, a, c) && TiesKept(before, b, d)
    ensures TiesKept(before, a + b, c + d)
  {
    hide Ahead;
    SameMembers(a, c);
    SameMembers(b, d);
    forall x, y | x in a + b && y in a + b && Tied(before, x, y) && Ahead(a + b, x, y) ensures Ahead(c + d, x, y) {
      AheadInPart(a, b, x, y);
      AheadIsIn(if Ahead(a, x, y) then a else b, x, y);
      if x in a && y in b {
        AheadOfAbsent(c, x, y);
      }
      PartAhead(c, d, x, y);
    }
  }

  lemma AheadInPart<T>(a: seq<T>, b: seq<T>, x: T, y: T)
    requires Ahead(a + b, x, y)
    ensures Ahead(a, x, y) || (Ahead(b, x, y) && y !in a)
  {
    ReachedInEither(a, b, Is(x), Is(y));
    assert forall i :: 0 <= i < |a| && Is(y)(a[i]) ==> a[i] == y;
    assert forall i :: 0 <= i < |a| && a[i] == y ==> Is(y)(a[i]);
  }

  lemma PartAhead<T>(a: seq<T>, b: seq<T>, x: T, y: T)
    ensures Ahead(a, x, y) || (Ahead(b, x, y) && y !in a) ==> Ahead(a + b, x, y)
  {
    if Ahead(a, x, y) {
      ReachesInFront(a, b, Is(x), Is(y));
    } else if Ahead(b, x, y) && y !in a {
      ReachesBehind(a, b, Is(x), Is(y));
    }
  }

  ghost function Position<T(!new)>(s: seq<T>, x: T): (i: nat)
    ensures x in s ==> i < |s| && s[i] == x
  {
    if x in s then var i :| 0 <= i < |s| && s[i] == x; i else |s|
  }

  /** Where elements tie, the place they have in one listing decides. */
  ghost function ThenPlace<T(!new)>(before: (T, T) -> bool, s: seq<T>): (T, T) -> bool {
    (x: T, y: T) => before(x, y) || (!before(y, x) && Position(s, x) < Position(s, y))
  }

  lemma ThenPlaceOrders<T(!new)>(before: (T, T) -> bool, s: seq<T>)
    requires Orders(before)
    ensures Orders(ThenPlace(before, s))
  {
    hide Orders;
    var full := ThenPlace(before, s);
    forall x, y, z ensures !full(x, x) && (full(x, y) && full(y, z) ==> full(x, z))
                           && (full(x, z) ==> full(x, y) || full(y, z)) {
      hide Position;
      OrdersAt(before, x, y, z);
      OrdersAt(before, x, z, y);
      OrdersAt(before, y, x, z);
      OrdersAt(before, y, z, x);
      OrdersAt(before, z, x, y);
      OrdersAt(before, z, y, x);
    }
    OrdersByCases(full);
  }

  lemma OrdersByCases<T(!new)>(full: (T, T) -> bool)
    requires forall x, y, z :: !full(x, x) && (full(x, y) && full(y, z) ==> full(x, z))
                               && (full(x, z) ==> full(x, y) || full(y, z))
    ensures Orders(full)
  {
    assert forall x :: !full(x, x);
  }

  lemma PlaceChangesNothing<T(!new)>(before: (T, T) -> bool, a: seq<T>, b: seq<T>)
    requires Distinct(a) && Distinct(b) && multiset(a) == multiset(b) && TiesKept(before, a, b)
    ensures Sort(before, b) == Sort(ThenPlace(before, a), b)
  {
    hide Sort, Distinct, Ahead, StandsBefore;
    SameMembers(a, b);
    var full := ThenPlace(before, a);
    forall i, j | 0 <= i < j < |b| ensures before(b[j], b[i]) <==> full(b[j], b[i]) {
      DistinctAt(b, i, j);
      assert StandsBefore(b, b[i], b[j]) by { Standing(b, i, j); }
      AheadStandsBefore(b, b[i], b[j]);
      OneIsAhead(b, b[j], b[i]);
      AheadByPosition(a, b[j], b[i]);
    }
    SortAgrees(before, full, b);
  }

  lemma DistinctAt<T(!new)>(s: seq<T>, i: nat, j: nat)
    requires Distinct(s) && i < j < |s|
    ensures s[i] != s[j]
  {
  }

  lemma Standing<T>(s: seq<T>, i: nat, j: nat)
    requires i < j < |s|
    ensures StandsBefore(s, s[i], s[j])
  {
  }

  lemma AheadByPosition<T(!new)>(s: seq<T>, x: T, y: T)
    requires Distinct(s) && x in s && y in s && x != y
    ensures Ahead(s, x, y) <==> Position(s, x) < Position(s, y)
  {
    hide Ahead;
    AheadStandsBefore(s, x, y);
  }

  lemma PlacesDoNotTie<T(!new)>(before: (T, T) -> bool, a: seq<T>)
    ensures NoTies(ThenPlace(before, a), a)
  {
    forall x, y | x in a && y in a && x != y
      ensures ThenPlace(before, a)(x, y) || ThenPlace(before, a)(y, x)
    {
      assert Position(a, x) != Position(a, y);
    }
  }

  /** Two orders of one listing are sorted alike if and only if elements that tie come in one order in both. */
  lemma SortsAlikeExactly<T(!new)>(before: (T, T) -> bool, a: seq<T>, b: seq<T>)
    requires Orders(before) && Distinct(a) && multiset(a) == multiset(b)
    ensures Sort(before, a) == Sort(before, b) <==> TiesKept(before, a, b)
  {
    hide Sort, Orders, Distinct, Ahead;
    DistinctPermuted(a, b);
    if TiesKept(before, a, b) {
      assert TiesKept(before, a, a);
      PlaceChangesNothing(before, a, a);
      PlaceChangesNothing(before, a, b);
      ThenPlaceOrders(before, a);
      PlacesDoNotTie(before, a);
      SortForgetsOrder(ThenPlace(before, a), a, b);
    } else if Sort(before, a) == Sort(before, b) {
      SameMembers(a, b);
      var x, y :| x in a && y in a && Tied(before, x, y) && Ahead(a, x, y) && !Ahead(b, x, y);
      AheadIsIn(a, x, y);
      OneIsAhead(b, y, x);
      StaysAhead(before, a, x, y);
      StaysAhead(before, b, y, x);
      NotBothAhead(Sort(before, a), x, y);
    }
  }

  lemma NotBothAhead<T>(s: seq<T>, x: T, y: T)
    requires Ahead(s, x, y)
    ensures !Ahead(s, y, x)
  {
    NotBoth(s, Is(x), Is(y));
  }

  lemma StaysAhead<T(!new)>(before: (T, T) -> bool, s: seq<T>, x: T, y: T)
    requires Distinct(s) && y in s && Tied(before, x, y) && Ahead(s, x, y)
    ensures Ahead(Sort(before, s), x, y)
  {
    hide Sort, Distinct, Ahead;
    AheadIsIn(s, x, y);
    AheadStandsBefore(s, x, y);
    SortIsStable(before, s, x, y);
    DistinctPermuted(s, Sort(before, s));
    SameMembers(s, Sort(before, s));
    AheadStandsBefore(Sort(before, s), x, y);
  }

  // ---------------------------------------------------------------- the first few of a sorted listing

  ghost function Leaders<T(!new)>(before: (T, T) -> bool, s: seq<T>, x: T): set<T> {
    set z | z in s && before(z, x)
  }

  /** Two different elements tie with fewer than n ahead of both. */
  ghost predicate CloseTie<T(!new)>(before: (T, T) -> bool, s: seq<T>, n: nat) {
    exists x, y :: x in s && y in s && x != y && Tied(before, x, y) && |Leaders(before, s, x)| < n
  }

  function Few<T>(s: seq<T>, n: nat): seq<T> { if |s| <= n then s else s[..n] }

  lemma {:induction false} LeadersAreFew<T(!new)>(before: (T, T) -> bool, s: seq<T>, i: nat)
    requires Orders(before) && Sorted(before, s) && i < |s|
    ensures |Leaders(before, s, s[i])| <= i
  {
    var ahead := Elements(s[..i]);
    forall z | z in Leaders(before, s, s[i]) ensures z in ahead {
      var m :| 0 <= m < |s| && s[m] == z;
      OrdersAt(before, z, z, z);
      assert s[..i][m] == z;
    }
    SubsetSize(Leaders(before, s, s[i]), ahead);
    ElementsAreFew(s[..i]);
  }

  ghost function Elements<T(!new)>(s: seq<T>): set<T> { set z | z in s }

  lemma {:induction false} SubsetSize<T>(a: set<T>, b: set<T>)
    requires a <= b
    ensures |a| <= |b|
    decreases a
  {
    if a != {} {
      var x :| x in a;
      SubsetSize(a - {x}, b - {x});
    }
  }

  lemma {:induction false} ElementsAreFew<T(!new)>(s: seq<T>)
    ensures |Elements(s)| <= |s|
    decreases |s|
  {
    if s != [] {
      var n := |s| - 1;
      ElementsAreFew(s[..n]);
      assert s == s[..n] + [s[n]];
      assert Elements(s) == Elements(s[..n]) + {s[n]};
    }
  }

  lemma {:induction false} ElementsAreAll<T(!new)>(s: seq<T>)
    requires Distinct(s)
    ensures |Elements(s)| == |s|
    decreases |s|
  {
    if s != [] {
      var n := |s| - 1;
      ElementsAreAll(s[..n]);
      assert s == s[..n] + [s[n]];
      assert Elements(s) == Elements(s[..n]) + {s[n]};
    }
  }

  /** Without a close tie, sorting forgets in which order the first few arrived. */
  lemma {:induction false} FewAgree<T(!new)>(before: (T, T) -> bool, a: seq<T>, b: seq<T>, n: nat)
    requires Orders(before) && Sorted(before, a) && Sorted(before, b) && multiset(a) == multiset(b)
    requires !CloseTie(before, a, n) && n <= |a|
    ensures n <= |b| && a[..n] == b[..n]
    decreases n
  {
    hide CloseTie, Orders, Sorted, Leaders;
    assert |multiset(a)| == |a| && |multiset(b)| == |b|;
    if n > 0 {
      CloserTie(before, a, n - 1, n);
      FewAgree(before, a, b, n - 1);
      NextAgrees(before, a, b, n - 1);
      assert a[..n] == a[..n - 1] + [a[n - 1]] && b[..n] == b[..n - 1] + [b[n - 1]];
    }
  }

  lemma CloserTie<T(!new)>(before: (T, T) -> bool, s: seq<T>, m: nat, n: nat)
    requires !CloseTie(before, s, n) && m <= n
    ensures !CloseTie(before, s, m)
  {
  }

  lemma RestAgrees<T>(a: seq<T>, b: seq<T>, n: nat)
    requires multiset(a) == multiset(b) && n <= |a| && n <= |b| && a[..n] == b[..n]
    ensures multiset(a[n..]) == multiset(b[n..])
  {
    assert a == a[..n] + a[n..] && b == b[..n] + b[n..];
    assert multiset(a) == multiset(a[..n]) + multiset(a[n..]);
    assert multiset(b) == multiset(a[..n]) + multiset(b[n..]);
    assert multiset(a[n..]) == multiset(a) - multiset(a[..n]);
  }

  lemma NextAgrees<T(!new)>(before: (T, T) -> bool, a: seq<T>, b: seq<T>, n: nat)
    requires Orders(before) && Sorted(before, a) && Sorted(before, b) && multiset(a) == multiset(b)
    requires !CloseTie(before, a, n + 1) && n < |a| == |b| && a[..n] == b[..n]
    ensures a[n] == b[n]
  {
    hide Leaders;
    RestAgrees(a, b, n);
    SameMembers(a[n..], b[n..]);
    assert a[n..][0] == a[n] && b[n..][0] == b[n];
    assert b[n] in a[n..] && a[n] in b[n..];
    var i :| 0 <= i < |a[n..]| && a[n..][i] == b[n];
    var j :| 0 <= j < |b[n..]| && b[n..][j] == a[n];
    OrdersAt(before, a[n], a[n], a[n]);
    assert Tied(before, a[n], b[n]);
    LeadersAreFew(before, a, n);
  }

  lemma CloseTieForgetsOrder<T(!new)>(before: (T, T) -> bool, a: seq<T>, b: seq<T>, n: nat)
    requires multiset(a) == multiset(b)
    ensures CloseTie(before, a, n) <==> CloseTie(before, b, n)
  {
    SameMembers(a, b);
    forall x ensures Leaders(before, a, x) == Leaders(before, b, x) {
    }
  }

  lemma FewForgetOrder<T(!new)>(before: (T, T) -> bool, a: seq<T>, b: seq<T>, n: nat)
    requires Orders(before) && multiset(a) == multiset(b) && !CloseTie(before, a, n)
    ensures Few(Sort(before, a), n) == Few(Sort(before, b), n)
  {
    hide Orders, Sort, Sorted, CloseTie;
    var s, t := Sort(before, a), Sort(before, b);
    SortSorts(before, a);
    SortSorts(before, b);
    CloseTieForgetsOrder(before, a, s, n);
    assert |multiset(s)| == |s| && |multiset(t)| == |t|;
    var m := if |s| <= n then |s| else n;
    CloserTie(before, s, m, n);
    FewAgree(before, s, t, m);
  }

  lemma LeadersOfTied<T(!new)>(before: (T, T) -> bool, a: seq<T>, b: seq<T>, x: T, y: T)
    requires Orders(before) && multiset(a) == multiset(b) && Tied(before, x, y)
    ensures Leaders(before, a, x) == Leaders(before, b, y)
  {
    SameMembers(a, b);
    forall z ensures before(z, x) <==> before(z, y) {
      OrdersAt(before, z, y, x);
      OrdersAt(before, z, x, y);
    }
  }

  /** With fewer than n leaders, what comes first is among the first n and heads those that tie with it. */
  lemma HeadIsAmongFew<T(!new)>(before: (T, T) -> bool, a: seq<T>, n: nat)
    requires Distinct(a) && a != [] && |Leaders(before, a, a[0])| < n
    ensures Heads(before, Few(Sort(before, a), n), a[0])
  {
    hide Sort, Distinct;
    var s, x := Sort(before, a), a[0];
    SortKeepsHead(before, a);
    DistinctPermuted(a, s);
    SameMembers(a, s);
    var i :| 0 <= i < |s| && s[i] == x && forall j :: 0 <= j < i ==> before(s[j], x);
    DistinctPrefix(s, i);
    ElementsAreAll(s[..i]);
    forall z | z in Elements(s[..i]) ensures z in Leaders(before, a, x) {
      var j :| 0 <= j < i && s[..i][j] == z;
      assert z in s;
    }
    SubsetSize(Elements(s[..i]), Leaders(before, a, x));
    var f := Few(s, n);
    assert f[i] == x && forall j :: 0 <= j < i ==> before(f[j], x);
  }

  lemma DistinctPrefix<T(!new)>(s: seq<T>, n: nat)
    requires Distinct(s) && n <= |s|
    ensures Distinct(s[..n])
  {
  }

  lemma OneHead<T(!new)>(before: (T, T) -> bool, s: seq<T>, x: T, y: T)
    requires Heads(before, s, x) && Heads(before, s, y) && Tied(before, x, y)
    ensures x == y
  {
    var i :| 0 <= i < |s| && s[i] == x && forall j :: 0 <= j < i ==> before(s[j], x);
    var k :| 0 <= k < |s| && s[k] == y && forall j :: 0 <= j < k ==> before(s[j], y);
    assert !(i < k) && !(k < i);
  }

  /** A close tie shows in the first few, when one or the other of the two that tie comes first. */
  lemma FewShowCloseTie<T(!new)>(before: (T, T) -> bool, a: seq<T>, b: seq<T>, n: nat)
    requires Orders(before) && Distinct(a) && multiset(a) == multiset(b) && a != [] && b != []
    requires a[0] != b[0] && Tied(before, a[0], b[0]) && |Leaders(before, a, a[0])| < n
    ensures Few(Sort(before, a), n) != Few(Sort(before, b), n)
  {
    hide Orders, Sort, Distinct, Heads, Few, Leaders, Tied;
    DistinctPermuted(a, b);
    LeadersOfTied(before, a, b, a[0], b[0]);
    HeadIsAmongFew(before, a, n);
    HeadIsAmongFew(before, b, n);
    if Few(Sort(before, a), n) == Few(Sort(before, b), n) {
      OneHead(before, Few(Sort(before, a), n), a[0], b[0]);
    }
  }
}
