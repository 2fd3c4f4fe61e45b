/** Reachability and acyclicity of finite directed graphs, given as sets of edges. */
module Graphs {

  /** There is a walk of exactly `n` edges from `x` to `y`. */
  ghost predicate Steps<T(!new)>(E: set<(T, T)>, x: T, y: T, n: nat) {
    if n == 0 then x == y
    else exists z :: (x, z) in E && Steps(E, z, y, n - 1)
  }

  /** `y` lies strictly after `x`: a non-empty walk leads from `x` to `y`. */
  ghost predicate Reaches<T(!new)>(E: set<(T, T)>, x: T, y: T) {
    exists n: nat :: n >= 1 && Steps(E, x, y, n)
  }

  ghost predicate Acyclic<T(!new)>(E: set<(T, T)>) {
    forall x :: !Reaches(E, x, x)
  }

  /** A walk starting at `x` enters a cycle. */
  ghost predicate ReachesCycle<T(!new)>(E: set<(T, T)>, x: T) {
    exists c :: (c == x || Reaches(E, x, c)) && Reaches(E, c, c)
  }

  lemma EdgeReaches<T(!new)>(E: set<(T, T)>, x: T, y: T)
    requires (x, y) in E
    ensures Reaches(E, x, y)
  {
    assert Steps(E, y, y, 0);
    assert Steps(E, x, y, 1);
  }

  lemma {:induction false} StepsConcat<T(!new)>(E: set<(T, T)>, x: T, y: T, z: T, n: nat, m: nat)
    requires Steps(E, x, y, n) && Steps(E, y, z, m)
    ensures Steps(E, x, z, n + m)
  {
    if n > 0 {
      var w :| (x, w) in E && Steps(E, w, y, n - 1);
      StepsConcat(E, w, y, z, n - 1, m);
    }
  }

  lemma ReachesTransitive<T(!new)>(E: set<(T, T)>, x: T, y: T, z: T)
    requires Reaches(E, x, y) && Reaches(E, y, z)
    ensures Reaches(E, x, z)
  {
    var n: nat :| n >= 1 && Steps(E, x, y, n);
    var m: nat :| m >= 1 && Steps(E, y, z, m);
    StepsConcat(E, x, y, z, n, m);
  }

  lemma ReachesFirst<T(!new)>(E: set<(T, T)>, x: T, y: T) returns (z: T)
    requires Reaches(E, x, y)
    ensures (x, z) in E && (z == y || Reaches(E, z, y))
  {
    var n: nat :| n >= 1 && Steps(E, x, y, n);
    z :| (x, z) in E && Steps(E, z, y, n - 1);
    if n > 1 {
      assert Steps(E, z, y, n - 1);
    }
  }

  lemma {:induction false} StepsLast<T(!new)>(E: set<(T, T)>, x: T, y: T, n: nat) returns (z: T)
    requires n >= 1 && Steps(E, x, y, n)
    ensures (z, y) in E && (z == x || Reaches(E, x, z))
  {
    var w :| (x, w) in E && Steps(E, w, y, n - 1);
    if n == 1 {
      z := x;
    } else {
      z := StepsLast(E, w, y, n - 1);
      EdgeReaches(E, x, w);
      if z != w { ReachesTransitive(E, x, w, z); }
    }
  }

  /** Every successor of an element of `order` appears strictly earlier in it. */
  ghost predicate Ordered<T(!new)>(E: set<(T, T)>, order: seq<T>) {
    && (forall i, j :: 0 <= i < j < |order| ==> order[i] != order[j])
    && (forall i, y :: 0 <= i < |order| && (order[i], y) in E ==> y in order[..i])
  }

  lemma {:induction false} OrderedSteps<T(!new)>(E: set<(T, T)>, order: seq<T>, i: nat, y: T, n: nat)
    requires Ordered(E, order) && i < |order| && n >= 1
    requires Steps(E, order[i], y, n)
    ensures y in order[..i]
  {
    var z :| (order[i], z) in E && Steps(E, z, y, n - 1);
    var j :| 0 <= j < i && order[j] == z;
    if n > 1 {
      OrderedSteps(E, order, j, y, n - 1);
    }
  }

  /** No walk from an element of an ordered sequence enters a cycle. */
  lemma OrderedHasNoCycle<T(!new)>(E: set<(T, T)>, order: seq<T>, x: T)
    requires Ordered(E, order) && x in order
    ensures !ReachesCycle(E, x)
  {
    if ReachesCycle(E, x) {
      var c :| (c == x || Reaches(E, x, c)) && Reaches(E, c, c);
      var i :| 0 <= i < |order| && order[i] == x;
      if c != x {
        var n: nat :| n >= 1 && Steps(E, x, c, n);
        OrderedSteps(E, order, i, c, n);
      }
      var j :| 0 <= j < |order| && order[j] == c;
      var m: nat :| m >= 1 && Steps(E, c, c, m);
      OrderedSteps(E, order, j, c, m);
      assert false;
    }
  }

  ghost predicate HasNextIn<T(!new)>(E: set<(T, T)>, U: set<T>, x: T) {
    exists y :: y in U && (x, y) in E
  }

  ghost predicate Endless<T(!new)>(E: set<(T, T)>, U: set<T>) {
    forall x {:trigger HasNextIn(E, U, x)} :: x in U ==> HasNextIn(E, U, x)
  }

  /** Inside a finite set that every element can be left only to stay in it, every walk runs into a cycle. */
  lemma {:induction false} EndlessReachesCycle<T(!new)>(E: set<(T, T)>, U: set<T>, x: T, seen: set<T>)
    requires Endless(E, U) && x in U && seen <= U
    requires forall s :: s in seen ==> Reaches(E, s, x)
    ensures ReachesCycle(E, x)
    decreases U - seen
  {
    if x !in seen {
      assert HasNextIn(E, U, x);
      var y :| y in U && (x, y) in E;
      EdgeReaches(E, x, y);
      forall s | s in seen ensures Reaches(E, s, y) { ReachesTransitive(E, s, x, y); }
      EndlessReachesCycle(E, U, y, seen + {x});
      var c :| (c == y || Reaches(E, y, c)) && Reaches(E, c, c);
      if c != y { ReachesTransitive(E, x, y, c); }
    }
  }

  lemma AcyclicIffNoReachesCycle<T(!new)>(E: set<(T, T)>)
    ensures Acyclic(E) <==> forall x :: !ReachesCycle(E, x)
  {
    if x :| Reaches(E, x, x) {
      assert ReachesCycle(E, x);
    }
  }

  /** In a finite acyclic graph, walking forward from `x` inside `U` ends in an element of `U` without successor in `U`. */
  lemma WalkToSink<T(!new)>(E: set<(T, T)>, U: set<T>, x: T) returns (s: T)
    requires Acyclic(E) && x in U
    requires forall a, b :: a in U && (a, b) in E ==> b in U
    ensures s in U && (s == x || Reaches(E, x, s)) && forall b :: (s, b) !in E
  {
    var R := set y | y in U && (y == x || Reaches(E, x, y));
    if Endless(E, R) {
      EndlessReachesCycle(E, R, x, {});
      assert false;
    }
    s :| s in R && !HasNextIn(E, R, s);
    if b :| (s, b) in E {
      EdgeReaches(E, s, b);
      if s != x { ReachesTransitive(E, x, s, b); }
      assert false;
    }
  }

  ghost function Reversed<T(!new)>(E: set<(T, T)>): (R: set<(T, T)>)
    ensures forall x, y :: (x, y) in R <==> (y, x) in E
  {
    set e <- E :: (e.1, e.0)
  }

  lemma {:induction false} StepsReversed<T(!new)>(E: set<(T, T)>, x: T, y: T, n: nat)
    requires Steps(E, x, y, n)
    ensures Steps(Reversed(E), y, x, n)
  {
    if n > 0 {
      var z :| (x, z) in E && Steps(E, z, y, n - 1);
      StepsReversed(E, z, y, n - 1);
      assert Steps(Reversed(E), x, x, 0);
      assert Steps(Reversed(E), z, x, 1);
      StepsConcat(Reversed(E), y, z, x, n - 1, 1);
    }
  }

  lemma ReachesReversed<T(!new)>(E: set<(T, T)>, x: T, y: T)
    ensures Reaches(Reversed(E), y, x) <==> Reaches(E, x, y)
  {
    var R := Reversed(E);
    assert Reversed(R) == E by {
      forall e ensures e in Reversed(R) <==> e in E { assert e == (e.0, e.1); }
    }
    if n: nat :| n >= 1 && Steps(E, x, y, n) { StepsReversed(E, x, y, n); }
    if n: nat :| n >= 1 && Steps(R, y, x, n) { StepsReversed(R, y, x, n); }
  }

  /** Dual of `WalkToSink`. */
  lemma WalkToSource<T(!new)>(E: set<(T, T)>, U: set<T>, x: T) returns (s: T)
    requires Acyclic(E) && x in U
    requires forall a, b :: b in U && (a, b) in E ==> a in U
    ensures s in U && (s == x || Reaches(E, s, x)) && forall a :: (a, s) !in E
  {
    var R := Reversed(E);
    forall y ensures !Reaches(R, y, y) { ReachesReversed(E, y, y); }
    s := WalkToSink(R, U, x);
    ReachesReversed(E, s, x);
  }

  /** Nodes other than `V` are crossed one at a time: after `V`, at most one of them, unless the walk stops for good. */
  ghost predicate CrossesSingly<T(!new)>(E: set<(T, T)>, V: set<T>) {
    forall a, h, y :: a in V && h !in V && (a, h) in E && (h, y) in E ==> y in V || forall z :: (y, z) !in E
  }

  /** Both ways of going from one node of `V` to the next are matched by walks of the other graph. */
  ghost predicate HopsMatched<T(!new), U(!new)>(E: set<(T, T)>, V: set<T>, F: set<(U, U)>, m: map<T, U>)
    requires V <= m.Keys
  {
    && (forall a, b :: a in V && b in V && (a, b) in E ==> Reaches(F, m[a], m[b]))
    && (forall a, h, b :: a in V && h !in V && b in V && (a, h) in E && (h, b) in E ==> Reaches(F, m[a], m[b]))
  }

  /** A graph whose hops between nodes of `V` are matched has all its reachability between them matched. */
  lemma {:induction false} HopsSimulated<T(!new), U(!new)>(
      E: set<(T, T)>, V: set<T>, F: set<(U, U)>, m: map<T, U>, a: T, b: T, n: nat)
    requires V <= m.Keys && a in V && b in V && n >= 1
    requires CrossesSingly(E, V) && HopsMatched(E, V, F, m)
    requires Steps(E, a, b, n)
    ensures Reaches(F, m[a], m[b])
  {
    var z :| (a, z) in E && Steps(E, z, b, n - 1);
    if z in V {
      if n > 1 {
        HopsSimulated(E, V, F, m, z, b, n - 1);
        ReachesTransitive(F, m[a], m[z], m[b]);
      }
    } else {
      assert n > 1;
      var y :| (z, y) in E && Steps(E, y, b, n - 2);
      if n > 2 {
        var w :| (y, w) in E && Steps(E, w, b, n - 3);
        assert y in V;
        HopsSimulated(E, V, F, m, y, b, n - 2);
        ReachesTransitive(F, m[a], m[y], m[b]);
      }
    }
  }
}
