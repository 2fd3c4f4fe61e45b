/** Activities and their dependency links, and the cycle check run on a loaded graph of activities. */
module Activities {
  import opened Common
  import opened Graphs

  /** Stands for the address of an activity. */
  type Id = nat

  datatype Kind = Exec | Comm

  datatype Activity = Activity(kind: Kind, name: string, amount: real, successors: seq<Id>, dependencies: set<Id>)

  /** The live activities, by address. */
  type Store = map<Id, Activity>

  predicate Succ(s: Store, a: Id, b: Id) { a in s && b in s[a].successors }

  predicate Pred(s: Store, a: Id, b: Id) { b in s && a in s[b].dependencies }

  ghost function EdgesOf(s: Store): (E: set<(Id, Id)>)
    ensures forall a: Id, b: Id :: (a, b) in E <==> Succ(s, a, b)
  {
    set a, b | a in s && b in s[a].successors :: (a, b)
  }

  lemma EdgeIsSucc(s: Store, a: Id, b: Id)
    ensures (a, b) in EdgesOf(s) <==> Succ(s, a, b)
  {
  }

  /** Links are recorded on both ends, once, between distinct live activities. */
  ghost predicate Consistent(s: Store) {
    && (forall a, b {:trigger Succ(s, a, b)} {:trigger Pred(s, a, b)} :: Succ(s, a, b) <==> Pred(s, a, b))
    && (forall a :: a in s ==> NoRepeats(s[a].successors) && a !in s[a].successors)
  }

  /** Same activities, links aside. */
  ghost predicate SameActivities(s: Store, t: Store) {
    && s.Keys == t.Keys
    && forall a :: a in s ==> t[a].kind == s[a].kind && t[a].name == s[a].name && t[a].amount == s[a].amount
  }

  /** Activities keep their kind, name and amount. */
  ghost predicate Retains(s: Store, s': Store) {
    forall x :: x in s ==> x in s' && s'[x].kind == s[x].kind && s'[x].name == s[x].name && s'[x].amount == s[x].amount
  }

  lemma SameSelf(s: Store)
    ensures SameActivities(s, s)
  {
  }

  lemma SameTransitive(s: Store, t: Store, u: Store)
    requires SameActivities(s, t) && SameActivities(t, u)
    ensures SameActivities(s, u) && s.Keys == t.Keys == u.Keys
  {
  }

  /** Every transfer goes from exactly one execution to exactly one execution. */
  ghost predicate ProperTransfers(s: Store) {
    forall c :: c in s && s[c].kind == Comm ==> ProperTransfer(s, c)
  }

  ghost predicate ProperTransfer(s: Store, c: Id)
    requires c in s
  {
    && |s[c].successors| == 1 && s[c].successors[0] in s && s[s[c].successors[0]].kind == Exec
    && exists p :: s[c].dependencies == {p} && p in s && s[p].kind == Exec
  }

  // ----- The backward sweep -----

  predicate AllMarked(s: Store, marked: set<Id>, e: Id)
    requires e in s
  {
    forall x :: x in s[e].successors ==> x in marked
  }

  /** Once marked, `x` sits at least `k` places deep in the marking order. */
  ghost predicate Late(order: seq<Id>, x: Id, k: nat) {
    |order| >= k && forall j :: 0 <= j < |order| && order[j] == x ==> j >= k
  }

  ghost predicate Queued(s: Store, marked: set<Id>, order: seq<Id>, q: seq<Id>, k: nat) {
    forall x :: x in q ==> x in s && s[x].kind == Exec && AllMarked(s, marked, x) && Late(order, x, k)
  }

  /** `order` lists the marked activities in the order in which they were first marked. */
  ghost predicate MarkOrder(s: Store, marked: set<Id>, order: seq<Id>) {
    && Ordered(EdgesOf(s), order)
    && marked <= s.Keys
    && forall x :: x in order <==> x in marked
  }

  /** State of the sweep: `pending` is left of the current layer, `next` is the next one, and `todo` holds the
      predecessors still to be visited of the activity under treatment. */
  ghost predicate Sweeping(s: Store, marked: set<Id>, order: seq<Id>, pending: seq<Id>, next: seq<Id>,
                           todo: set<Id>, layer: nat)
  {
    && MarkOrder(s, marked, order)
    && Queued(s, marked, order, pending, layer)
    && Queued(s, marked, order, next, layer + 1)
    && NoneForgotten(s, marked, pending, next, todo)
  }

  /** Whatever can be marked is marked, queued, or a predecessor still to be visited. */
  ghost predicate NoneForgotten(s: Store, marked: set<Id>, pending: seq<Id>, next: seq<Id>, todo: set<Id>) {
    && (forall e :: e in s && s[e].kind == Exec && AllMarked(s, marked, e) ==>
          e in marked || e in pending || e in next || e in todo)
    && (forall c :: c in s && s[c].kind == Comm && s[c].successors != [] && s[c].successors[0] in marked ==>
          c in marked || c in todo)
  }

  lemma MarkKeepsOrder(s: Store, marked: set<Id>, order: seq<Id>, x: Id)
    requires Consistent(s) && MarkOrder(s, marked, order) && x in s && AllMarked(s, marked, x)
    ensures MarkOrder(s, marked + {x}, if x in marked then order else order + [x])
  {
    var order' := if x in marked then order else order + [x];
    if x !in marked {
      var E := EdgesOf(s);
      forall i, y | 0 <= i < |order'| && (order'[i], y) in E ensures y in order'[..i] {
        if i < |order| {
          assert y in order[..i];
          assert order'[..i] == order[..i];
        } else {
          assert y in order;
          assert order'[..i] == order;
        }
      }
    }
  }

  lemma MarkExec(s: Store, marked: set<Id>, order: seq<Id>, a: Id, pending: seq<Id>, next: seq<Id>, layer: nat)
    requires Consistent(s) && ProperTransfers(s)
    requires Sweeping(s, marked, order, [a] + pending, next, {}, layer)
    ensures a in s
    ensures var order' := if a in marked then order else order + [a];
            Sweeping(s, marked + {a}, order', pending, next, s[a].dependencies, layer) && Late(order', a, layer)
  {
    assert a in [a] + pending;
    MarkKeepsOrder(s, marked, order, a);
    var order' := if a in marked then order else order + [a];
    forall x | x in pending ensures x in s && s[x].kind == Exec && AllMarked(s, marked + {a}, x) && Late(order', x, layer) {
      assert x in [a] + pending;
    }
    forall c | c in s && s[c].kind == Comm && s[c].successors != [] && s[c].successors[0] == a ensures c in s[a].dependencies {
      assert Succ(s, c, a);
    }
    forall e | e in s && s[e].kind == Exec && AllMarked(s, marked + {a}, e)
      ensures e in marked + {a} || e in pending || e in next || e in s[a].dependencies
    {
      if a in s[e].successors { assert Succ(s, e, a); } else { assert AllMarked(s, marked, e); }
    }
  }

  lemma MarkComm(s: Store, marked: set<Id>, order: seq<Id>, a: Id, c: Id, p: Id, pending: seq<Id>, next: seq<Id>,
                 todo: set<Id>, layer: nat)
    requires Consistent(s) && ProperTransfers(s)
    requires Sweeping(s, marked, order, pending, next, todo, layer)
    requires a in marked && Pred(s, c, a) && c in s && s[c].kind == Comm && s[c].dependencies == {p}
    requires Late(order, a, layer)
    ensures p in s && s[p].kind == Exec
    ensures var marked', order' := marked + {c}, if c in marked then order else order + [c];
            && Late(order', a, layer)
            && Sweeping(s, marked', order', pending, if AllMarked(s, marked', p) then next + [p] else next,
                        todo - {c}, layer)
  {
    assert ProperTransfer(s, c) && Succ(s, c, a) && Pred(s, p, c) && Succ(s, p, c);
    var marked', order' := marked + {c}, if c in marked then order else order + [c];
    MarkKeepsOrder(s, marked, order, c);
    QueuedGrows(s, marked, order, pending, layer, c);
    QueuedGrows(s, marked, order, next, layer + 1, c);
    CommQueues(s, marked', order', a, c, p, next, layer);
    CommCompletes(s, marked, c, p, pending, next, todo);
  }

  lemma CommQueues(s: Store, marked: set<Id>, order: seq<Id>, a: Id, c: Id, p: Id, next: seq<Id>, layer: nat)
    requires MarkOrder(s, marked, order) && Succ(s, p, c) && Succ(s, c, a) && s[p].kind == Exec
    requires a in marked && c in marked && Late(order, a, layer) && Queued(s, marked, order, next, layer + 1)
    ensures Queued(s, marked, order, if AllMarked(s, marked, p) then next + [p] else next, layer + 1)
  {
    if AllMarked(s, marked, p) {
      Deeper(s, marked, order, c, a, layer);
      Deeper(s, marked, order, p, c, layer);
      QueuedPush(s, marked, order, next, layer + 1, p);
    }
  }

  lemma CommCompletes(s: Store, marked: set<Id>, c: Id, p: Id, pending: seq<Id>, next: seq<Id>, todo: set<Id>)
    requires Consistent(s) && ProperTransfers(s) && NoneForgotten(s, marked, pending, next, todo)
    requires c in s && s[c].kind == Comm && s[c].dependencies == {p} && p in s
    ensures NoneForgotten(s, marked + {c}, pending, if AllMarked(s, marked + {c}, p) then next + [p] else next, todo - {c})
  {
    var next' := if AllMarked(s, marked + {c}, p) then next + [p] else next;
    forall e | e in s && s[e].kind == Exec && AllMarked(s, marked + {c}, e)
      ensures e in marked + {c} || e in pending || e in next' || e in todo - {c}
    {
      if c in s[e].successors {
        assert Succ(s, e, c) && Pred(s, e, c);
        assert e == p;
      } else {
        assert AllMarked(s, marked, e);
      }
    }
    forall d | d in s && s[d].kind == Comm && s[d].successors != [] && s[d].successors[0] in marked + {c}
      ensures d in marked + {c} || d in todo - {c}
    {
      assert ProperTransfer(s, d);
    }
  }

  lemma QueuedPush(s: Store, marked: set<Id>, order: seq<Id>, q: seq<Id>, k: nat, p: Id)
    requires Queued(s, marked, order, q, k)
    requires p in s && s[p].kind == Exec && AllMarked(s, marked, p) && Late(order, p, k)
    ensures Queued(s, marked, order, q + [p], k)
  {
  }

  lemma QueuedGrows(s: Store, marked: set<Id>, order: seq<Id>, q: seq<Id>, k: nat, x: Id)
    requires Queued(s, marked, order, q, k)
    ensures Queued(s, marked + {x}, if x in marked then order else order + [x], q, k)
  {
  }

  /** An activity whose successor is marked at depth `k` or more, with all successors marked, comes later. */
  lemma Deeper(s: Store, marked: set<Id>, order: seq<Id>, p: Id, a: Id, k: nat)
    requires MarkOrder(s, marked, order) && a in order && Late(order, a, k) && (p, a) in EdgesOf(s)
    ensures Late(order, p, k + 1)
  {
    var j :| 0 <= j < |order| && order[j] == a;
    forall i | 0 <= i < |order| && order[i] == p ensures i >= k + 1 {
      assert a in order[..i];
      var l :| 0 <= l < i && order[l] == a;
    }
  }

  lemma VisitExec(s: Store, marked: set<Id>, order: seq<Id>, a: Id, p: Id, pending: seq<Id>, next: seq<Id>,
                  todo: set<Id>, layer: nat)
    requires Consistent(s)
    requires Sweeping(s, marked, order, pending, next, todo, layer)
    requires a in marked && Pred(s, p, a) && p in s && s[p].kind == Exec
    requires Late(order, a, layer)
    ensures Sweeping(s, marked, order, pending, if AllMarked(s, marked, p) then next + [p] else next,
                     todo - {p}, layer)
  {
    assert Succ(s, p, a);
    if AllMarked(s, marked, p) {
      Deeper(s, marked, order, p, a, layer);
    }
  }

  lemma DistinctBounded(order: seq<Id>, keys: set<Id>)
    requires NoRepeats(order) && forall x :: x in order ==> x in keys
    ensures |order| <= |keys|
  {
    if order != [] {
      var n := |order| - 1;
      forall x | x in order[..n] ensures x in keys - {order[n]} { }
      DistinctBounded(order[..n], keys - {order[n]});
    }
  }

  /** Each layer lies one place deeper in the marking order, so there are no more layers than activities. */
  lemma LayerBounded(s: Store, marked: set<Id>, order: seq<Id>, current: seq<Id>, layer: nat)
    requires Sweeping(s, marked, order, current, [], {}, layer) && current != []
    ensures layer <= |s.Keys|
  {
    assert current[0] in current;
    DistinctBounded(order, s.Keys);
  }

  lemma SweepStarts(s: Store, exits: seq<Id>)
    requires forall x :: x in exits <==> x in s && s[x].kind == Exec && s[x].successors == []
    ensures Sweeping(s, {}, [], exits, [], {}, 0)
  {
    forall e | e in s && s[e].successors != [] ensures !AllMarked(s, {}, e) {
      assert s[e].successors[0] in s[e].successors;
    }
  }

  /** When the sweep stops, the marked activities are exactly those from which no cycle can be reached. */
  lemma SweepVerdict(s: Store, marked: set<Id>, order: seq<Id>, layer: nat)
    requires Consistent(s) && ProperTransfers(s) && Sweeping(s, marked, order, [], [], {}, layer)
    ensures forall x :: x in marked <==> x in s && !ReachesCycle(EdgesOf(s), x)
    ensures Acyclic(EdgesOf(s)) <==> s.Keys == marked
  {
    var E, U := EdgesOf(s), s.Keys - marked;
    forall x | x in U ensures HasNextIn(E, U, x) {
      var y := Unmarked(s, marked, x);
      assert (x, y) in E;
    }
    forall x | x in s && x !in marked ensures ReachesCycle(E, x) {
      EndlessReachesCycle(E, U, x, {});
    }
    forall x | x in marked ensures !ReachesCycle(E, x) {
      OrderedHasNoCycle(E, order, x);
    }
    AcyclicIffNoReachesCycle(E);
    if s.Keys == marked {
      forall x ensures !Reaches(E, x, x) {
        if Reaches(E, x, x) {
          var z := ReachesFirst(E, x, x);
          assert ReachesCycle(E, x);
        }
      }
    }
  }

  lemma Unmarked(s: Store, marked: set<Id>, x: Id) returns (y: Id)
    requires Consistent(s) && ProperTransfers(s) && x in s && x !in marked
    requires s[x].kind == Exec ==> !AllMarked(s, marked, x)
    requires s[x].kind == Comm && s[x].successors != [] ==> s[x].successors[0] !in marked
    ensures y in s[x].successors && y in s && y !in marked
  {
    if s[x].kind == Exec {
      y :| y in s[x].successors && y !in marked;
    } else {
      assert ProperTransfer(s, x);
      y := s[x].successors[0];
    }
    assert Succ(s, x, y) && Pred(s, x, y);
  }

  // ----- Linking and unlinking -----

  function Link(s: Store, a: Id, b: Id): (t: Store)
    requires a in s && b in s && a != b
    ensures SameActivities(s, t)
  {
    s[a := s[a].(successors := s[a].successors + [b])][b := s[b].(dependencies := s[b].dependencies + {a})]
  }

  lemma LinkAddsEdge(s: Store, a: Id, b: Id)
    requires Consistent(s) && a in s && b in s && a != b && b !in s[a].successors
    ensures Consistent(Link(s, a, b))
    ensures EdgesOf(Link(s, a, b)) == EdgesOf(s) + {(a, b)}
  {
    var t := Link(s, a, b);
    assert forall x: Id, y: Id :: Succ(t, x, y) <==> Succ(s, x, y) || (x == a && y == b);
    assert forall x: Id, y: Id :: Pred(t, x, y) <==> Pred(s, x, y) || (x == a && y == b);
    forall e ensures e in EdgesOf(t) <==> e in EdgesOf(s) + {(a, b)} { assert e == (e.0, e.1); }
  }

  function Without(q: seq<Id>, b: Id): (r: seq<Id>)
    ensures forall x :: x in r ==> x in q
    ensures forall x :: x in q && x != b ==> x in r
    ensures NoRepeats(q) ==> NoRepeats(r) && b !in r
    ensures b in q ==> |r| == |q| - 1
  {
    if q == [] then [] else if q[0] == b then q[1..] else
      assert q == [q[0]] + q[1..];
      assert q[0] in q[1..] ==> !NoRepeats(q);
      [q[0]] + Without(q[1..], b)
  }

  function Unlink(s: Store, a: Id, b: Id): (t: Store)
    requires a in s && b in s && a != b
    ensures SameActivities(s, t)
  {
    s[a := s[a].(successors := Without(s[a].successors, b))][b := s[b].(dependencies := s[b].dependencies - {a})]
  }

  lemma UnlinkRemovesEdge(s: Store, a: Id, b: Id)
    requires Consistent(s) && a in s && b in s && a != b
    ensures Consistent(Unlink(s, a, b))
    ensures EdgesOf(Unlink(s, a, b)) == EdgesOf(s) - {(a, b)}
  {
    var t := Unlink(s, a, b);
    assert forall x: Id, y: Id :: Succ(t, x, y) <==> Succ(s, x, y) && !(x == a && y == b);
    assert forall x: Id, y: Id :: Pred(t, x, y) <==> Pred(s, x, y) && !(x == a && y == b);
    forall e ensures e in EdgesOf(t) <==> e in EdgesOf(s) - {(a, b)} { assert e == (e.0, e.1); }
  }

  lemma DropIsolated(s: Store, a: Id)
    requires Consistent(s) && a in s && s[a].successors == [] && s[a].dependencies == {}
    ensures Consistent(s - {a}) && EdgesOf(s - {a}) == EdgesOf(s)
  {
    var t := s - {a};
    forall x, y ensures Succ(t, x, y) <==> Succ(s, x, y) { assert Succ(s, x, y) <==> Pred(s, x, y); }
    forall x, y ensures Pred(t, x, y) <==> Pred(s, x, y) { assert Succ(s, x, y) <==> Pred(s, x, y); }
    forall e ensures e in EdgesOf(t) <==> e in EdgesOf(s) { assert e == (e.0, e.1); }
  }

  lemma AddIsolated(s: Store, a: Id, n: Activity)
    requires Consistent(s) && a !in s && n.successors == [] && n.dependencies == {}
    ensures Consistent(s[a := n]) && EdgesOf(s[a := n]) == EdgesOf(s)
  {
    SameLinks(s, s[a := n]);
  }

  lemma SameLinks(s: Store, t: Store)
    requires Consistent(s) && s.Keys <= t.Keys
    requires forall a :: a in s ==> t[a].successors == s[a].successors && t[a].dependencies == s[a].dependencies
    requires forall a :: a in t && a !in s ==> t[a].successors == [] && t[a].dependencies == {}
    ensures Consistent(t) && EdgesOf(t) == EdgesOf(s)
  {
    forall x, y ensures Succ(t, x, y) <==> Succ(s, x, y) { }
    forall x, y ensures Pred(t, x, y) <==> Pred(s, x, y) { }
    forall e ensures e in EdgesOf(t) <==> e in EdgesOf(s) { assert e == (e.0, e.1); }
  }

  lemma Unlinked(s: Store, root: Id, a: Id, end: Id)
    requires Consistent(s) && a in s
    ensures s[a].dependencies == {} ==> (root, a) !in EdgesOf(s)
    ensures s[a].successors == [] ==> (a, end) !in EdgesOf(s)
  {
    EdgeIsSucc(s, root, a);
    EdgeIsSucc(s, a, end);
    assert Succ(s, root, a) <==> Pred(s, root, a);
  }

  /** A new activity has no links. */
  lemma Fresh(s: Store, m: Store, t: Id, x: Id)
    requires Consistent(s) && t !in s && EdgesOf(m) == EdgesOf(s) && x in s
    ensures x != t && (x, t) !in EdgesOf(m) && (t, x) !in EdgesOf(m)
  {
    EdgeIsSucc(s, x, t);
    EdgeIsSucc(s, t, x);
    assert Succ(s, x, t) <==> Pred(s, x, t);
  }

  // ----- The heap of activities -----

  class ActivityGraph {
    var store: Store
    var marked: set<Id>  // activities whose mark is set
    var nextId: Id

    ghost predicate Valid() reads this {
      Consistent(store) && marked <= store.Keys && forall a :: a in store ==> a < nextId
    }

    ghost function Edges(): set<(Id, Id)> reads this { EdgesOf(store) }

    constructor ()
      ensures Valid() && store == map[] && marked == {} && Edges() == {}
    {
      store, marked, nextId := map[], {}, 0;
    }

    method Create(kind: Kind, name: string, amount: real) returns (a: Id)
      requires Valid()
      modifies this
      ensures Valid() && a !in old(store) && a == old(nextId)
      ensures store == old(store)[a := Activity(kind, name, amount, [], {})]
      ensures Edges() == old(Edges()) && marked == old(marked)
    {
      a := nextId;
      AddIsolated(store, a, Activity(kind, name, amount, [], {}));
      store := store[a := Activity(kind, name, amount, [], {})];
      nextId := nextId + 1;
    }

    /** Fails, changing nothing, on a self edge or an edge already there. */
    method AddSuccessor(a: Id, b: Id) returns (ok: bool)
      requires Valid() && a in store && b in store
      modifies this`store
      ensures Valid() && SameActivities(old(store), store)
      ensures ok <==> a != b && (a, b) !in old(Edges())
      ensures ok ==> store == Link(old(store), a, b)
      ensures Edges() == old(Edges()) + if ok then {(a, b)} else {}
      ensures !ok ==> store == old(store)
    {
      if a == b || b in store[a].successors {
        return false;
      }
      LinkAddsEdge(store, a, b);
      store := store[a := store[a].(successors := store[a].successors + [b])];
      store := store[b := store[b].(dependencies := store[b].dependencies + {a})];
      return true;
    }

    method Rename(a: Id, name: string)
      requires Valid() && a in store
      modifies this`store
      ensures Valid() && store == old(store)[a := old(store)[a].(name := name)] && Edges() == old(Edges())
    {
      SameLinks(store, store[a := store[a].(name := name)]);
      store := store[a := store[a].(name := name)];
    }

    method RemoveSuccessor(a: Id, b: Id)
      requires Valid() && Succ(store, a, b) && b in store && a != b
      modifies this`store
      ensures Valid() && store == Unlink(old(store), a, b)
      ensures Edges() == old(Edges()) - {(a, b)}
    {
      UnlinkRemovesEdge(store, a, b);
      store := store[a := store[a].(successors := Without(store[a].successors, b))];
      store := store[b := store[b].(dependencies := store[b].dependencies - {a})];
    }

    /** Unlinks the activity from all others and frees it. */
    method Destroy(a: Id)
      requires Valid() && a in store
      modifies this
      ensures Valid() && store.Keys == old(store).Keys - {a}
      ensures marked == old(marked) - {a} && nextId == old(nextId)
      ensures Edges() == set e | e in old(Edges()) && e.0 != a && e.1 != a
      ensures SameActivities(old(store) - {a}, store)
    {
      UnlinkAll(a);
      DropIsolated(store, a);
      store := store - {a};
      marked := marked - {a};
    }

    method UnlinkAll(a: Id)
      requires Valid() && a in store
      modifies this`store
      ensures Valid() && SameActivities(old(store), store)
      ensures store[a].successors == [] && store[a].dependencies == {}
      ensures Edges() == set e | e in old(Edges()) && e.0 != a && e.1 != a
    {
      while store[a].dependencies != {}
        invariant Valid() && SameActivities(old(store), store)
        invariant Edges() <= old(Edges())
        invariant forall e :: e in old(Edges()) && e !in Edges() ==> e.1 == a
        decreases store[a].dependencies
      {
        var p :| p in store[a].dependencies;
        assert Pred(store, p, a) && Succ(store, p, a);
        RemoveSuccessor(p, a);
      }
      while store[a].successors != []
        invariant Valid() && SameActivities(old(store), store) && store[a].dependencies == {}
        invariant Edges() <= old(Edges())
        invariant forall e :: e in old(Edges()) && e !in Edges() ==> e.1 == a || e.0 == a
        decreases |store[a].successors|
      {
        var b := store[a].successors[0];
        assert Succ(store, a, b) && Pred(store, a, b);
        RemoveSuccessor(a, b);
      }
      forall e | e in Edges() ensures e.0 != a && e.1 != a {
        assert e == (e.0, e.1) && Succ(store, e.0, e.1) && Pred(store, e.0, e.1);
      }
    }

    method Exits(dag: seq<Id>) returns (exits: seq<Id>)
      requires forall x :: x in dag ==> x in store
      ensures forall x :: x in exits <==> x in dag && store[x].kind == Exec && store[x].successors == []
    {
      exits := [];
      for i := 0 to |dag|
        invariant forall x :: x in exits <==> x in dag[..i] && store[x].kind == Exec && store[x].successors == []
      {
        if store[dag[i]].kind == Exec && store[dag[i]].successors == [] {
          exits := exits + [dag[i]];
        }
      }
      assert dag[..|dag|] == dag;
    }

    /** Visits one predecessor of `a`, which is marked. */
    method Visit(a: Id, pred: Id, next: seq<Id>, ghost order: seq<Id>, ghost pending: seq<Id>, ghost todo: set<Id>,
                 ghost layer: nat)
      returns (next': seq<Id>, ghost order': seq<Id>)
      requires Consistent(store) && ProperTransfers(store)
      requires a in marked && Pred(store, pred, a) && pred in store && Late(order, a, layer)
      requires Sweeping(store, marked, order, pending, next, todo, layer) && pred in todo
      modifies this`marked
      ensures old(marked) <= marked && Late(order', a, layer)
      ensures Sweeping(store, marked, order', pending, next', todo - {pred}, layer)
    {
      next', order' := next, order;
      if store[pred].kind == Comm {
        assert ProperTransfer(store, pred);
        var predPred :| predPred in store[pred].dependencies;
        MarkComm(store, marked, order, a, pred, predPred, pending, next, todo, layer);
        if pred !in marked { order' := order + [pred]; }
        marked := marked + {pred};
        if AllMarked(store, marked, predPred) { next' := next + [predPred]; }
      } else {
        VisitExec(store, marked, order, a, pred, pending, next, todo, layer);
        if AllMarked(store, marked, pred) { next' := next + [pred]; }
      }
    }

    method SweepLayer(current: seq<Id>, ghost order: seq<Id>, ghost layer: nat)
      returns (next: seq<Id>, ghost order': seq<Id>)
      requires Consistent(store) && ProperTransfers(store)
      requires Sweeping(store, marked, order, current, [], {}, layer)
      modifies this`marked
      ensures Sweeping(store, marked, order', [], next, {}, layer)
    {
      next, order' := [], order;
      for i := 0 to |current|
        invariant Sweeping(store, marked, order', current[i..], next, {}, layer)
      {
        var a := current[i];
        assert current[i..] == [a] + current[i + 1..];
        MarkExec(store, marked, order', a, current[i + 1..], next, layer);
        if a !in marked { order' := order' + [a]; }
        marked := marked + {a};
        var todo := store[a].dependencies;
        while todo != {}
          invariant todo <= store[a].dependencies && a in marked && Late(order', a, layer)
          invariant Sweeping(store, marked, order', current[i + 1..], next, todo, layer)
          decreases todo
        {
          var pred :| pred in todo;
          assert Pred(store, pred, a) && Succ(store, pred, a);
          next, order' := Visit(a, pred, next, order', current[i + 1..], todo, layer);
          todo := todo - {pred};
        }
      }
      assert current[|current|..] == [];
    }

    /** Marks every activity from which no cycle can be reached, layer by layer from the exits, and tells whether
        that is all of them. Dependencies are visited in any order. */
    method CheckForCycle(dag: seq<Id>) returns (acyclic: bool)
      requires Valid() && ProperTransfers(store) && marked == {}
      requires forall x :: x in dag <==> x in store
      modifies this`marked
      ensures acyclic <==> Acyclic(Edges())
      ensures forall x :: x in marked <==> x in store && !ReachesCycle(Edges(), x)
    {
      var current := Exits(dag);
      ghost var order: seq<Id>, layer := [], 0;
      SweepStarts(store, current);
      while current != []
        invariant Sweeping(store, marked, order, current, [], {}, layer)
        invariant layer <= |store.Keys| + 1
        decreases |store.Keys| + 1 - layer
      {
        LayerBounded(store, marked, order, current, layer);
        current, order := SweepLayer(current, order, layer);
        layer := layer + 1;
      }
      SweepVerdict(store, marked, order, layer);
      acyclic := forall x :: x in dag ==> x in marked;
    }
  }
}
