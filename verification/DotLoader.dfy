/** Loading a DOT graph, given as the nodes and edges read from it, into a graph of activities. */
module DotLoader {
  import opened Common
  import opened Graphs
  import opened Activities

  datatype DotNode = DotNode(name: string, size: real)
  datatype DotEdge = DotEdge(src: string, dst: string, size: real)

  // ----- Anchoring on root and end -----

  ghost predicate NoneBefore(D: set<(Id, Id)>, y: Id) { forall z: Id :: (z, y) !in D }

  ghost predicate NoneAfter(D: set<(Id, Id)>, x: Id) { forall z: Id :: (x, z) !in D }

  /** `E` adds to `D` only edges from the root to sources and from sinks to the end, and leaves no other source and no
      other sink. */
  ghost predicate Anchored(D: set<(Id, Id)>, E: set<(Id, Id)>, nodes: set<Id>, root: Id, end: Id) {
    && root in nodes && end in nodes && root != end && D <= E
    && (forall x: Id, y: Id :: (x, y) in E ==> x in nodes && y in nodes)
    && (forall x: Id, y: Id :: (x, y) in E && (x, y) !in D ==>
          (x == root && y != root && NoneBefore(D, y)) || (y == end && x != end && NoneAfter(D, x)))
    && (forall y {:trigger HasNextIn(Reversed(E), nodes, y)} :: y in nodes && y != root ==> HasNextIn(Reversed(E), nodes, y))
    && (forall x {:trigger HasNextIn(E, nodes, x)} :: x in nodes && x != end ==> HasNextIn(E, nodes, x))
  }

  lemma {:induction false} StepsWithin(D: set<(Id, Id)>, E: set<(Id, Id)>, x: Id, y: Id, n: nat)
    requires Steps(D, x, y, n) && D <= E
    ensures Steps(E, x, y, n)
    decreases n
  {
    if n > 0 {
      var z :| (x, z) in D && Steps(D, z, y, n - 1);
      StepsWithin(D, E, z, y, n - 1);
    }
  }

  /** A walk that neither starts at the root nor stops at the end uses no added edge. */
  lemma {:induction false} StepsDeclared(D: set<(Id, Id)>, E: set<(Id, Id)>, nodes: set<Id>, root: Id, end: Id, x: Id, y: Id, n: nat)
    requires Anchored(D, E, nodes, root, end) && Steps(E, x, y, n) && x != root && y != end
    requires forall z: Id :: (z, root) !in D && (end, z) !in D
    ensures Steps(D, x, y, n)
    decreases n
  {
    if n > 0 {
      var z :| (x, z) in E && Steps(E, z, y, n - 1);
      if n > 1 { var w :| (z, w) in E && Steps(E, w, y, n - 2); }
      assert (x, z) in D && z != root;
      StepsDeclared(D, E, nodes, root, end, z, y, n - 1);
    }
  }

  lemma CycleWithin(D: set<(Id, Id)>, E: set<(Id, Id)>, x: Id)
    requires Reaches(D, x, x) && D <= E
    ensures Reaches(E, x, x)
  {
    var n: nat :| n >= 1 && Steps(D, x, x, n);
    StepsWithin(D, E, x, x, n);
  }

  lemma CycleDeclared(D: set<(Id, Id)>, E: set<(Id, Id)>, nodes: set<Id>, root: Id, end: Id, x: Id)
    requires Anchored(D, E, nodes, root, end) && Reaches(E, x, x)
    requires forall z: Id :: (z, root) !in D && (end, z) !in D
    ensures Reaches(D, x, x)
  {
    var n: nat :| n >= 1 && Steps(E, x, x, n);
    var y := ReachesFirst(E, x, x);
    var z := StepsLast(E, x, x, n);
    StepsDeclared(D, E, nodes, root, end, x, x, n);
  }

  lemma EntersRoot(E: set<(Id, Id)>, nodes: set<Id>, root: Id, x: Id)
    requires (x, root) in E && x in nodes && root in nodes
    requires forall y {:trigger HasNextIn(Reversed(E), nodes, y)} :: y in nodes && y != root ==> HasNextIn(Reversed(E), nodes, y)
    ensures !Acyclic(E)
  {
    var R := Reversed(E);
    assert HasNextIn(R, nodes, root);
    EndlessReachesCycle(R, nodes, root, {});
    var c :| (c == root || Reaches(R, root, c)) && Reaches(R, c, c);
    ReachesReversed(E, c, c);
  }

  lemma LeavesEnd(E: set<(Id, Id)>, nodes: set<Id>, end: Id, x: Id)
    requires (end, x) in E && x in nodes && end in nodes
    requires forall y {:trigger HasNextIn(E, nodes, y)} :: y in nodes && y != end ==> HasNextIn(E, nodes, y)
    ensures !Acyclic(E)
  {
    assert HasNextIn(E, nodes, end);
    EndlessReachesCycle(E, nodes, end, {});
    var c :| (c == end || Reaches(E, end, c)) && Reaches(E, c, c);
  }

  /** The anchored graph is acyclic exactly when the declared one is, and nothing precedes root or follows end. */
  lemma AnchoringVerdict(D: set<(Id, Id)>, E: set<(Id, Id)>, nodes: set<Id>, root: Id, end: Id)
    requires Anchored(D, E, nodes, root, end)
    ensures Acyclic(E) <==> Acyclic(D) && forall z: Id :: (z, root) !in D && (end, z) !in D
  {
    if Acyclic(E) {
      forall x ensures !Reaches(D, x, x) {
        if Reaches(D, x, x) { CycleWithin(D, E, x); }
      }
      if z: Id :| (z, root) in D { EntersRoot(E, nodes, root, z); }
      if z: Id :| (end, z) in D { LeavesEnd(E, nodes, end, z); }
    }
    if Acyclic(D) && forall z: Id :: (z, root) !in D && (end, z) !in D {
      forall x ensures !Reaches(E, x, x) {
        if Reaches(E, x, x) { CycleDeclared(D, E, nodes, root, end, x); }
      }
    }
  }

  /** In an accepted graph, root is the only source, end the only sink, and everything lies between them. */
  lemma OnlyRootAndEnd(D: set<(Id, Id)>, E: set<(Id, Id)>, nodes: set<Id>, root: Id, end: Id, x: Id)
    requires Anchored(D, E, nodes, root, end) && Acyclic(E) && x in nodes
    ensures (forall z: Id :: (z, x) !in E) <==> x == root
    ensures (forall z: Id :: (x, z) !in E) <==> x == end
    ensures x == root || Reaches(E, root, x)
    ensures x == end || Reaches(E, x, end)
  {
    if z: Id :| (z, root) in E { EntersRoot(E, nodes, root, z); }
    if z: Id :| (end, z) in E { LeavesEnd(E, nodes, end, z); }
    var s := WalkToSource(E, nodes, x);
    assert s == root || HasNextIn(Reversed(E), nodes, s);
    var t := WalkToSink(E, nodes, x);
    assert t == end || HasNextIn(E, nodes, t);
    if x != root { assert HasNextIn(Reversed(E), nodes, x); }
    if x != end { assert HasNextIn(E, nodes, x); }
  }

  // ----- What the edges of the file stand for -----

  /** Direct links between nodes, and by name the edges that became transfers. */
  datatype DotGraph = DotGraph(links: set<(string, string)>, comms: map<string, DotEdge>)

  function EdgeName(e: DotEdge): string { e.src + "->" + e.dst }

  /** An edge with a size becomes a transfer, unless its name is taken; one without becomes a link, which must be new. */
  function ReadEdge(nodes: set<string>, g: DotGraph, e: DotEdge): Option<DotGraph> {
    if e.size > 0.0 then
      if EdgeName(e) in nodes || EdgeName(e) in g.comms then Some(g)
      else Some(g.(comms := g.comms[EdgeName(e) := e]))
    else if e.src == e.dst || (e.src, e.dst) in g.links then None
    else Some(g.(links := g.links + {(e.src, e.dst)}))
  }

  function ReadEdges(nodes: set<string>, edges: seq<DotEdge>): Option<DotGraph> {
    if edges == [] then Some(DotGraph({}, map[]))
    else
      var g := ReadEdges(nodes, edges[..|edges| - 1]);
      if g.None? then None else ReadEdge(nodes, g.value, edges[|edges| - 1])
  }

  lemma LastEdge(edges: seq<DotEdge>)
    requires edges != []
    ensures forall e :: e in edges <==> e in edges[..|edges| - 1] || e == edges[|edges| - 1]
  {
    assert edges == edges[..|edges| - 1] + [edges[|edges| - 1]];
  }

  /** The first edge with a size and that name. */
  function FirstNamed(edges: seq<DotEdge>, n: string): (r: Option<DotEdge>)
    ensures r.Some? ==> r.value in edges && r.value.size > 0.0 && EdgeName(r.value) == n
    ensures r.None? ==> forall e :: e in edges && e.size > 0.0 ==> EdgeName(e) != n
  {
    if edges == [] then None
    else
      LastEdge(edges);
      var e := edges[|edges| - 1];
      var r := FirstNamed(edges[..|edges| - 1], n);
      if r.Some? then r else if e.size > 0.0 && EdgeName(e) == n then Some(e) else None
  }

  /** What is read of the edges: the first one of each name that is no node's, and all those without a size. */
  lemma {:induction false} GraphRead(nodes: set<string>, edges: seq<DotEdge>)
    requires ReadEdges(nodes, edges).Some?
    ensures var g := ReadEdges(nodes, edges).value;
            && (forall n :: n in g.comms <==> n !in nodes && FirstNamed(edges, n).Some?)
            && (forall n :: n in g.comms ==> g.comms[n] == FirstNamed(edges, n).value)
            && (forall a, b :: (a, b) in g.links <==> exists e :: e in edges && e.size <= 0.0 && e.src == a && e.dst == b)
  {
    if edges != [] {
      LastEdge(edges);
      GraphRead(nodes, edges[..|edges| - 1]);
    }
  }

  ghost predicate LinksOnce(edges: seq<DotEdge>) {
    && (forall e :: e in edges && e.size <= 0.0 ==> e.src != e.dst)
    && forall i, j :: 0 <= i < j < |edges| && edges[i].size <= 0.0 && edges[j].size <= 0.0 ==>
         edges[i].src != edges[j].src || edges[i].dst != edges[j].dst
  }

  /** The edges are read exactly when those without a size are no loops and differ in their ends. */
  lemma {:induction false} ReadableIff(nodes: set<string>, edges: seq<DotEdge>)
    ensures ReadEdges(nodes, edges).Some? <==> LinksOnce(edges)
  {
    if edges != [] {
      var n := |edges| - 1;
      var front, e := edges[..n], edges[n];
      LastEdge(edges);
      ReadableIff(nodes, front);
      LinksOnceNext(edges);
      if ReadEdges(nodes, front).Some? { GraphRead(nodes, front); }
      hide LinksOnce;
    }
  }

  lemma LinksOnceNext(edges: seq<DotEdge>)
    requires edges != []
    ensures var front, e := edges[..|edges| - 1], edges[|edges| - 1];
            LinksOnce(edges) <==> LinksOnce(front) && (e.size <= 0.0 ==>
              e.src != e.dst && !exists f :: f in front && f.size <= 0.0 && f.src == e.src && f.dst == e.dst)
  {
    var n := |edges| - 1;
    var front, e := edges[..n], edges[n];
    LastEdge(edges);
    if LinksOnce(front) && e.size <= 0.0 && !exists f :: f in front && f.size <= 0.0 && f.src == e.src && f.dst == e.dst {
      forall i | 0 <= i < n && edges[i].size <= 0.0 ensures edges[i].src != e.src || edges[i].dst != e.dst { assert front[i] in front; }
    }
    if LinksOnce(edges) && e.size <= 0.0 {
      forall f | f in front && f.size <= 0.0 ensures f.src != e.src || f.dst != e.dst {
        var i :| 0 <= i < n && front[i] == f;
        assert edges[i] == f;
      }
    }
  }

  /** A transfer joins the ends of the edge. */
  predicate KeptBetween(g: DotGraph, e: DotEdge) {
    EdgeName(e) in g.comms && g.comms[EdgeName(e)].src == e.src && g.comms[EdgeName(e)].dst == e.dst
  }

  /** No edge with a size has the name of a node, or that of an edge between other ends. */
  ghost predicate NamesTell(nodes: set<string>, edges: seq<DotEdge>) {
    && (forall e :: e in edges && e.size > 0.0 ==> EdgeName(e) !in nodes)
    && forall e, f :: e in edges && f in edges && e.size > 0.0 && f.size > 0.0 && EdgeName(e) == EdgeName(f) ==>
         e.src == f.src && e.dst == f.dst
  }

  /** Every edge with a size is kept between its ends exactly when the names tell them. */
  lemma EdgesKeptIff(nodes: set<string>, edges: seq<DotEdge>)
    requires ReadEdges(nodes, edges).Some?
    ensures (forall e :: e in edges && e.size > 0.0 ==> KeptBetween(ReadEdges(nodes, edges).value, e)) <==> NamesTell(nodes, edges)
  {
    GraphRead(nodes, edges);
    var g := ReadEdges(nodes, edges).value;
    hide ReadEdges, FirstNamed, EdgeName;
    if forall e :: e in edges && e.size > 0.0 ==> KeptBetween(g, e) {
      forall e, f | e in edges && f in edges && e.size > 0.0 && f.size > 0.0 && EdgeName(e) == EdgeName(f)
        ensures e.src == f.src && e.dst == f.dst
      {
        assert KeptBetween(g, e) && KeptBetween(g, f);
      }
    }
    if NamesTell(nodes, edges) {
      forall e | e in edges && e.size > 0.0 ensures KeptBetween(g, e) {
        assert FirstNamed(edges, EdgeName(e)).Some?;
      }
    }
  }

  function SizedCount(edges: seq<DotEdge>): nat {
    if edges == [] then 0 else SizedCount(edges[..|edges| - 1]) + if edges[|edges| - 1].size > 0.0 then 1 else 0
  }

  /** Edges with a size have names of their own. */
  ghost predicate NamesApart(nodes: set<string>, edges: seq<DotEdge>) {
    && (forall e :: e in edges && e.size > 0.0 ==> EdgeName(e) !in nodes)
    && forall i, j :: 0 <= i < j < |edges| && edges[i].size > 0.0 && edges[j].size > 0.0 ==> EdgeName(edges[i]) != EdgeName(edges[j])
  }

  /** Every edge with a size has a transfer of its own, of its own size, exactly when no name is taken: parallel edges
      with a size share the transfer of the first one. */
  lemma {:induction false} OwnTransfersIff(nodes: set<string>, edges: seq<DotEdge>)
    requires ReadEdges(nodes, edges).Some?
    ensures var g := ReadEdges(nodes, edges).value;
            && |g.comms| <= SizedCount(edges)
            && (|g.comms| == SizedCount(edges) <==> NamesApart(nodes, edges))
            && (NamesApart(nodes, edges) ==> forall e :: e in edges && e.size > 0.0 ==> EdgeName(e) in g.comms && g.comms[EdgeName(e)] == e)
  {
    if edges != [] {
      var n := |edges| - 1;
      var front, e := edges[..n], edges[n];
      OwnTransfersIff(nodes, front);
      GraphRead(nodes, front);
      LastEdge(edges);
      NamesApartNext(nodes, edges);
      hide NamesApart, EdgeName, FirstNamed;
    }
  }

  lemma NamesApartNext(nodes: set<string>, edges: seq<DotEdge>)
    requires edges != []
    ensures var front, e := edges[..|edges| - 1], edges[|edges| - 1];
            NamesApart(nodes, edges) <==>
            NamesApart(nodes, front) && (e.size > 0.0 ==> EdgeName(e) !in nodes && FirstNamed(front, EdgeName(e)).None?)
  {
    hide EdgeName, FirstNamed;
    var n := |edges| - 1;
    var front, e := edges[..n], edges[n];
    LastEdge(edges);
    if NamesApart(nodes, edges) && e.size > 0.0 {
      forall f | f in front && f.size > 0.0 ensures EdgeName(f) != EdgeName(e) {
        var i :| 0 <= i < n && front[i] == f;
        assert edges[i] == f;
      }
    }
    if NamesApart(nodes, front) && (e.size > 0.0 ==> EdgeName(e) !in nodes && FirstNamed(front, EdgeName(e)).None?) {
      forall i | 0 <= i < n && edges[i].size > 0.0 && e.size > 0.0 ensures EdgeName(edges[i]) != EdgeName(e) { assert front[i] in front; }
      assert forall i :: 0 <= i < n ==> edges[i] == front[i];
    }
  }

  /** An edge whose name is taken leaves no trace, whatever its size. */
  lemma TakenNameDropped(nodes: set<string>, edges: seq<DotEdge>, e: DotEdge)
    requires e.size > 0.0 && (EdgeName(e) in nodes || FirstNamed(edges, EdgeName(e)).Some?)
    ensures ReadEdges(nodes, edges + [e]) == ReadEdges(nodes, edges)
  {
    assert (edges + [e])[..|edges|] == edges;
    if ReadEdges(nodes, edges).Some? { GraphRead(nodes, edges); }
  }

  ghost predicate Plain(names: set<string>) { forall n :: n in names ==> '>' !in n }

  /** Names without '>' are told apart in the name of their edge. */
  lemma EdgeNamesTold(a: string, b: string, c: string, d: string)
    requires '>' !in a && '>' !in c && a + "->" + b == c + "->" + d
    ensures a == c && b == d
  {
    var t := a + "->" + b;
    assert t[|a| + 1] == '>' && t[|c| + 1] == '>';
    assert t[..|a| + 1] == a + "-" && t[..|c| + 1] == c + "-";
    assert |a| == |c|;
    assert a == t[..|a|] && c == t[..|c|] && b == t[|a| + 2..] && d == t[|c| + 2..];
  }

  /** When no node name holds a '>', names tell the ends. */
  lemma PlainNamesTell(nodes: set<string>, edges: seq<DotEdge>)
    requires Plain(nodes) && forall e :: e in edges ==> e.src in nodes && e.dst in nodes
    ensures NamesTell(nodes, edges)
  {
    forall e | e in edges ensures EdgeName(e) !in nodes { assert EdgeName(e)[|e.src| + 1] == '>'; }
    forall e, f | e in edges && f in edges && EdgeName(e) == EdgeName(f) ensures e.src == f.src && e.dst == f.dst {
      EdgeNamesTold(e.src, e.dst, f.src, f.dst);
    }
  }

  /** Two edges between different ends can share a name, and then the second is lost. */
  lemma EdgeLost()
    ensures var nodes, edges := {"a", "a->b", "b->c", "c"}, [DotEdge("a", "b->c", 1.0), DotEdge("a->b", "c", 1.0)];
            ReadEdges(nodes, edges).Some? && !KeptBetween(ReadEdges(nodes, edges).value, edges[1])
  {
    var nodes, edges := {"a", "a->b", "b->c", "c"}, [DotEdge("a", "b->c", 1.0), DotEdge("a->b", "c", 1.0)];
    assert EdgeName(edges[0]) == "a->b->c" == EdgeName(edges[1]);
    ReadableIff(nodes, edges);
    EdgesKeptIff(nodes, edges);
    assert edges[..1] == [edges[0]] && edges[..1][..0] == [];
    assert FirstNamed(edges[..1], "a->b->c") == Some(edges[0]);
    GraphRead(nodes, edges);
  }

  ghost function LinkEdges(g: DotGraph, act: map<string, Id>): set<(Id, Id)>
    requires forall l :: l in g.links ==> l.0 in act && l.1 in act
  {
    set l | l in g.links :: (act[l.0], act[l.1])
  }

  ghost function OutEdges(g: DotGraph, act: map<string, Id>): set<(Id, Id)>
    requires forall n :: n in g.comms ==> n in act && g.comms[n].src in act
  {
    set n | n in g.comms :: (act[g.comms[n].src], act[n])
  }

  ghost function InEdges(g: DotGraph, act: map<string, Id>): set<(Id, Id)>
    requires forall n :: n in g.comms ==> n in act && g.comms[n].dst in act
  {
    set n | n in g.comms :: (act[n], act[g.comms[n].dst])
  }

  /** The links that stand for the graph. */
  ghost function GraphEdges(g: DotGraph, act: map<string, Id>): set<(Id, Id)>
    requires forall l :: l in g.links ==> l.0 in act && l.1 in act
    requires forall n :: n in g.comms ==> n in act && g.comms[n].src in act && g.comms[n].dst in act
  {
    LinkEdges(g, act) + OutEdges(g, act) + InEdges(g, act)
  }

  /** Every node has its execution and every transfer its communication, all different, linked as the graph says. */
  ghost predicate Stands(nodes: set<string>, g: DotGraph, s: Store, act: map<string, Id>) {
    && act.Keys == nodes + g.comms.Keys && nodes !! g.comms.Keys
    && (forall l :: l in g.links ==> l.0 in nodes && l.1 in nodes)
    && (forall n :: n in g.comms ==> g.comms[n].src in nodes && g.comms[n].dst in nodes)
    && Placed(nodes, s, act)
    && EdgesOf(s) == GraphEdges(g, act)
  }

  ghost predicate Placed(nodes: set<string>, s: Store, act: map<string, Id>) {
    && (forall n :: n in act ==> act[n] in s && s[act[n]].kind == if n in nodes then Exec else Comm)
    && (forall n, m :: n in act && m in act && act[n] == act[m] ==> n == m)
  }

  lemma PlacedMore(nodes: set<string>, s: Store, s': Store, act: map<string, Id>, n: string, a: Id, nodes': set<string>)
    requires Placed(nodes, s, act) && n !in act && a !in s && nodes' - {n} == nodes - {n}
    requires s'.Keys == s.Keys + {a} && (forall x :: x in s ==> s'[x].kind == s[x].kind)
    requires s'[a].kind == if n in nodes' then Exec else Comm
    ensures Placed(nodes', s', act[n := a])
  {
    forall m | m in act ensures m in nodes <==> m in nodes' { assert m in nodes - {n} <==> m in nodes' - {n}; }
  }

  lemma LinkIsNew(nodes: set<string>, g: DotGraph, s: Store, act: map<string, Id>, a: string, b: string)
    requires Stands(nodes, g, s, act) && a in nodes && b in nodes
    ensures act[a] == act[b] <==> a == b
    ensures (act[a], act[b]) in EdgesOf(s) <==> (a, b) in g.links
  {
    var E := GraphEdges(g, act);
    if (act[a], act[b]) in E {
      if l :| l in g.links && (act[l.0], act[l.1]) == (act[a], act[b]) {
        assert l == (a, b);
      }
    }
    if (a, b) in g.links { assert (act[a], act[b]) in E; }
  }

  lemma LinkRead(nodes: set<string>, g: DotGraph, s: Store, s': Store, act: map<string, Id>, a: string, b: string)
    requires Stands(nodes, g, s, act) && a in nodes && b in nodes && SameActivities(s, s')
    requires EdgesOf(s') == EdgesOf(s) + {(act[a], act[b])}
    ensures Stands(nodes, g.(links := g.links + {(a, b)}), s', act)
  {
    var g' := g.(links := g.links + {(a, b)});
    assert GraphEdges(g', act) == GraphEdges(g, act) + {(act[a], act[b])};
  }

  lemma TransferRead(nodes: set<string>, g: DotGraph, s: Store, s': Store, act: map<string, Id>, n: string,
                     e: DotEdge, c: Id, g': DotGraph, act': map<string, Id>)
    requires Stands(nodes, g, s, act) && e.src in nodes && e.dst in nodes && n !in act && c !in s
    requires s'.Keys == s.Keys + {c} && (forall x :: x in s ==> s'[x].kind == s[x].kind) && s'[c].kind == Comm
    requires EdgesOf(s') == EdgesOf(s) + {(act[e.src], c)} + {(c, act[e.dst])}
    requires g' == g.(comms := g.comms[n := e]) && act' == act[n := c]
    ensures Stands(nodes, g', s', act')
  {
    hide GraphEdges, EdgesOf, Placed;
    PlacedMore(nodes, s, s', act, n, c, nodes);
    GraphEdgesGrow(nodes, g, act, n, e, c);
    assert act'.Keys == nodes + g'.comms.Keys;
  }

  lemma GraphEdgesGrow(nodes: set<string>, g: DotGraph, act: map<string, Id>, n: string, e: DotEdge, c: Id)
    requires act.Keys == nodes + g.comms.Keys && n !in act && e.src in nodes && e.dst in nodes
    requires forall l :: l in g.links ==> l.0 in nodes && l.1 in nodes
    requires forall n :: n in g.comms ==> g.comms[n].src in nodes && g.comms[n].dst in nodes
    ensures GraphEdges(g.(comms := g.comms[n := e]), act[n := c]) == GraphEdges(g, act) + {(act[e.src], c)} + {(c, act[e.dst])}
  {
    var g', act' := g.(comms := g.comms[n := e]), act[n := c];
    forall m | m in act ensures m in act' && act'[m] == act[m] { }
    forall m | m in g.comms ensures m in g'.comms && g'.comms[m] == g.comms[m] { }
    assert LinkEdges(g', act') == LinkEdges(g, act);
    OutEdgesGrow(g, act, n, e, c);
    InEdgesGrow(g, act, n, e, c);
    hide LinkEdges, OutEdges, InEdges;
  }

  lemma OutEdgesGrow(g: DotGraph, act: map<string, Id>, n: string, e: DotEdge, c: Id)
    requires (forall m :: m in g.comms ==> m in act && g.comms[m].src in act) && n !in act && e.src in act
    ensures OutEdges(g.(comms := g.comms[n := e]), act[n := c]) == OutEdges(g, act) + {(act[e.src], c)}
  {
    var g', act' := g.(comms := g.comms[n := e]), act[n := c];
    forall m | m in g.comms ensures m in g'.comms && g'.comms[m] == g.comms[m] && act'[m] == act[m] { }
    assert n in g'.comms && act'[n] == c;
  }

  lemma InEdgesGrow(g: DotGraph, act: map<string, Id>, n: string, e: DotEdge, c: Id)
    requires (forall m :: m in g.comms ==> m in act && g.comms[m].dst in act) && n !in act && e.dst in act
    ensures InEdges(g.(comms := g.comms[n := e]), act[n := c]) == InEdges(g, act) + {(c, act[e.dst])}
  {
    var g', act' := g.(comms := g.comms[n := e]), act[n := c];
    forall m | m in g.comms ensures m in g'.comms && g'.comms[m] == g.comms[m] && act'[m] == act[m] { }
    assert n in g'.comms && act'[n] == c;
  }

  lemma NodeRead(nodes: set<string>, s: Store, s': Store, act: map<string, Id>, n: string, a: Id, act': map<string, Id>)
    requires Stands(nodes, DotGraph({}, map[]), s, act) && Consistent(s) && n !in act && a !in s
    requires a in s' && s' == s[a := s'[a]] && s'[a].kind == Exec && EdgesOf(s') == EdgesOf(s) && act' == act[n := a]
    ensures Stands(nodes + {n}, DotGraph({}, map[]), s', act')
  {
    hide EdgesOf, Placed;
    PlacedMore(nodes, s, s', act, n, a, nodes + {n});
  }

  // ----- Names and amounts -----

  const NoEdges: DotGraph := DotGraph({}, map[])

  function AddNode(sizes: map<string, real>, n: DotNode): map<string, real> {
    if n.name in sizes then sizes else sizes[n.name := n.size]
  }

  /** The nodes by name, each with its first size. */
  function Sizes(nodes: seq<DotNode>): map<string, real> {
    if nodes == [] then map[] else AddNode(Sizes(nodes[..|nodes| - 1]), nodes[|nodes| - 1])
  }

  /** Executions have the name and size of their node, transfers those of their edge. */
  ghost predicate Labelled(sizes: map<string, real>, g: DotGraph, s: Store, act: map<string, Id>) {
    forall n :: n in act ==>
      && act[n] in s && s[act[n]].name == n
      && (n in sizes ==> s[act[n]].amount == sizes[n]) && (n !in sizes && n in g.comms ==> s[act[n]].amount == g.comms[n].size)
  }

  ghost predicate StandsFor(sizes: map<string, real>, g: DotGraph, s: Store, act: map<string, Id>) {
    Stands(sizes.Keys, g, s, act) && Labelled(sizes, g, s, act)
  }

  lemma LabelsKept(sizes: map<string, real>, g: DotGraph, g': DotGraph, s: Store, s': Store, act: map<string, Id>)
    requires Labelled(sizes, g, s, act) && g'.comms == g.comms && Retains(s, s')
    ensures Labelled(sizes, g', s', act)
  {
  }

  lemma PlacesKept(nodes: set<string>, g: DotGraph, s: Store, s': Store, act: map<string, Id>)
    requires Stands(nodes, g, s, act) && Retains(s, s')
    ensures Placed(nodes, s', act)
  {
  }

  // ----- What is loaded, in terms of the file -----

  /** The size of a node is the first one given for its name. */
  lemma {:induction false} SizesAre(nodes: seq<DotNode>, n: string)
    ensures n in Sizes(nodes) <==> exists i :: 0 <= i < |nodes| && nodes[i].name == n
    ensures forall i :: 0 <= i < |nodes| && nodes[i].name == n && (forall j :: 0 <= j < i ==> nodes[j].name != n) ==>
              n in Sizes(nodes) && Sizes(nodes)[n] == nodes[i].size
  {
    if nodes != [] {
      var k := |nodes| - 1;
      var front := nodes[..k];
      SizesAre(front, n);
      assert forall i :: 0 <= i < k ==> front[i] == nodes[i];
      if nodes[k].name == n && n in Sizes(front) {
        var i :| 0 <= i < k && front[i].name == n;
        assert nodes[i].name == n;
      }
    }
  }

  /** Edge `i` becomes a transfer: it has a size, and its name is neither a node's nor that of an earlier one. */
  ghost predicate MakesTransfer(nodes: set<string>, edges: seq<DotEdge>, i: nat) {
    && i < |edges| && edges[i].size > 0.0 && edges[i].src + "->" + edges[i].dst !in nodes
    && forall j :: 0 <= j < i && edges[j].size > 0.0 ==> edges[j].src + "->" + edges[j].dst != edges[i].src + "->" + edges[i].dst
  }

  lemma {:induction false} FirstIs(edges: seq<DotEdge>, n: string) returns (i: nat)
    requires FirstNamed(edges, n).Some?
    ensures i < |edges| && edges[i] == FirstNamed(edges, n).value && edges[i].size > 0.0 && edges[i].src + "->" + edges[i].dst == n
    ensures forall j :: 0 <= j < i && edges[j].size > 0.0 ==> edges[j].src + "->" + edges[j].dst != n
  {
    var k := |edges| - 1;
    if FirstNamed(edges[..k], n).Some? {
      i := FirstIs(edges[..k], n);
      assert forall j :: 0 <= j < k ==> edges[..k][j] == edges[j];
    } else {
      i := k;
      forall j | 0 <= j < k && edges[j].size > 0.0 ensures edges[j].src + "->" + edges[j].dst != n { assert edges[..k][j] in edges[..k]; }
    }
  }

  /** The transfers read are exactly those edges, under that name. */
  lemma TransfersAre(nodes: set<string>, edges: seq<DotEdge>, n: string, e: DotEdge)
    requires ReadEdges(nodes, edges).Some?
    ensures var g := ReadEdges(nodes, edges).value;
            n in g.comms && g.comms[n] == e <==>
            exists i :: 0 <= i < |edges| && MakesTransfer(nodes, edges, i) && edges[i] == e && e.src + "->" + e.dst == n
  {
    GraphRead(nodes, edges);
    hide ReadEdges, FirstNamed;
    if FirstNamed(edges, n).Some? && n !in nodes {
      var i := FirstIs(edges, n);
      assert MakesTransfer(nodes, edges, i);
    }
    if i :| 0 <= i < |edges| && MakesTransfer(nodes, edges, i) && edges[i] == e && e.src + "->" + e.dst == n {
      assert edges[i] in edges && EdgeName(edges[i]) == n;
      var k := FirstIs(edges, n);
      assert k == i;
    }
  }

  /** The transfer of `e` is `m`, out of node `n`, or is `n`, into node `m`. */
  ghost predicate Through(e: DotEdge, n: string, m: string) {
    (e.src == n && e.src + "->" + e.dst == m) || (e.src + "->" + e.dst == n && e.dst == m)
  }

  /** Linked in the graph read: by an edge without a size, or by an edge that is a transfer, before or after it. */
  ghost predicate Joined(nodes: set<string>, edges: seq<DotEdge>, n: string, m: string) {
    || (exists e :: e in edges && e.size <= 0.0 && e.src == n && e.dst == m)
    || (exists i :: 0 <= i < |edges| && MakesTransfer(nodes, edges, i) && Through(edges[i], n, m))
  }

  /** What the loader leaves, said of the nodes and edges of the file: an execution for each node, a communication for
      each edge that becomes a transfer, each with its name and amount, and linked just as the edges say. */
  lemma LoadedAre(nodes: seq<DotNode>, edges: seq<DotEdge>, s: Store, act: map<string, Id>, D: set<(Id, Id)>)
    requires var names := Sizes(nodes).Keys;
             && ReadEdges(names, edges).Some? && Drawn(names, ReadEdges(names, edges).value, act, D)
             && Labelled(Sizes(nodes), ReadEdges(names, edges).value, s, act) && Placed(names, s, act)
    ensures forall i :: 0 <= i < |nodes| && (forall j :: 0 <= j < i ==> nodes[j].name != nodes[i].name) ==>
              var n := nodes[i].name;
              n in act && act[n] in s && s[act[n]].kind == Exec && s[act[n]].name == n && s[act[n]].amount == nodes[i].size
    ensures forall i: nat :: MakesTransfer(Sizes(nodes).Keys, edges, i) ==>
              var n := edges[i].src + "->" + edges[i].dst;
              n in act && act[n] in s && s[act[n]].kind == Comm && s[act[n]].name == n && s[act[n]].amount == edges[i].size
    ensures forall n, m :: n in act && m in act ==> ((act[n], act[m]) in D <==> Joined(Sizes(nodes).Keys, edges, n, m))
  {
    var names := Sizes(nodes).Keys;
    var g := ReadEdges(names, edges).value;
    hide ReadEdges, Sizes, FirstNamed, GraphEdges;
    forall i | 0 <= i < |nodes| && (forall j :: 0 <= j < i ==> nodes[j].name != nodes[i].name)
      ensures nodes[i].name in names && Sizes(nodes)[nodes[i].name] == nodes[i].size
    {
      SizesAre(nodes, nodes[i].name);
    }
    forall i: nat | MakesTransfer(names, edges, i)
      ensures var n := edges[i].src + "->" + edges[i].dst; n !in names && n in g.comms && g.comms[n] == edges[i]
    {
      TransfersAre(names, edges, edges[i].src + "->" + edges[i].dst, edges[i]);
    }
    forall n, m | n in act && m in act ensures (act[n], act[m]) in D <==> Joined(names, edges, n, m) {
      JoinedIff(names, edges, act, D, n, m);
    }
  }

  lemma JoinedIff(names: set<string>, edges: seq<DotEdge>, act: map<string, Id>, D: set<(Id, Id)>, n: string, m: string)
    requires ReadEdges(names, edges).Some? && Drawn(names, ReadEdges(names, edges).value, act, D) && n in act && m in act
    ensures (act[n], act[m]) in D <==> Joined(names, edges, n, m)
  {
    hide ReadEdges, FirstNamed, MakesTransfer, Through, Drawn;
    var g := ReadEdges(names, edges).value;
    GraphRead(names, edges);
    EdgesAre(g, act, D, names, n, m);
    ThroughIff(names, edges, n, m);
  }

  lemma ThroughIff(names: set<string>, edges: seq<DotEdge>, n: string, m: string)
    requires ReadEdges(names, edges).Some?
    ensures var g := ReadEdges(names, edges).value;
            (m in g.comms && g.comms[m].src == n) || (n in g.comms && g.comms[n].dst == m) <==>
            exists i :: 0 <= i < |edges| && MakesTransfer(names, edges, i) && Through(edges[i], n, m)
  {
    hide ReadEdges, FirstNamed, MakesTransfer;
    var g := ReadEdges(names, edges).value;
    if m in g.comms { TransfersAre(names, edges, m, g.comms[m]); }
    if n in g.comms { TransfersAre(names, edges, n, g.comms[n]); }
    if i :| 0 <= i < |edges| && MakesTransfer(names, edges, i) && Through(edges[i], n, m) {
      TransfersAre(names, edges, edges[i].src + "->" + edges[i].dst, edges[i]);
    }
  }

  lemma EdgesAre(g: DotGraph, act: map<string, Id>, D: set<(Id, Id)>, names: set<string>, n: string, m: string)
    requires Drawn(names, g, act, D) && n in act && m in act
    ensures (act[n], act[m]) in D <==> (n, m) in g.links || (m in g.comms && g.comms[m].src == n) || (n in g.comms && g.comms[n].dst == m)
  {
    if (n, m) in g.links { assert (act[n], act[m]) in LinkEdges(g, act); }
    if m in g.comms && g.comms[m].src == n { assert (act[n], act[m]) in OutEdges(g, act); }
    if n in g.comms && g.comms[n].dst == m { assert (act[n], act[m]) in InEdges(g, act); }
    if (act[n], act[m]) in LinkEdges(g, act) {
      var l :| l in g.links && (act[l.0], act[l.1]) == (act[n], act[m]);
      assert l == (n, m);
    }
    if (act[n], act[m]) in OutEdges(g, act) {
      var k :| k in g.comms && (act[g.comms[k].src], act[k]) == (act[n], act[m]);
    }
    if (act[n], act[m]) in InEdges(g, act) {
      var k :| k in g.comms && (act[k], act[g.comms[k].dst]) == (act[n], act[m]);
    }
  }

  lemma NodeLabelled(sizes: map<string, real>, s: Store, s': Store, act: map<string, Id>, n: DotNode, a: Id)
    requires Labelled(sizes, NoEdges, s, act) && n.name !in act && n.name !in sizes && a !in s
    requires s' == s[a := Activity(Exec, n.name, n.size, [], {})]
    ensures Labelled(AddNode(sizes, n), NoEdges, s', act[n.name := a])
  {
  }

  lemma TransferLabelled(sizes: map<string, real>, g: DotGraph, s: Store, s': Store, act: map<string, Id>, n: string, e: DotEdge, c: Id)
    requires Labelled(sizes, g, s, act) && n !in act && n !in sizes && c !in s && Retains(s, s')
    requires c in s' && s'[c].name == n && s'[c].amount == e.size
    ensures Labelled(sizes, g.(comms := g.comms[n := e]), s', act[n := c])
  {
  }

  lemma NamesLabelled(sizes: map<string, real>, g: DotGraph, s: Store, act: map<string, Id>)
    requires Labelled(sizes, g, s, act)
    ensures forall n :: n in act && n in sizes ==> act[n] in s && s[act[n]].name == n && s[act[n]].amount == sizes[n]
  {
  }

  // ----- The loader -----

  class Loader {
    const heap: ActivityGraph
    var activities: map<string, Id>
    var dag: seq<Id>
    var root: Id
    var end: Id

    /** `dag` lists the activities other than `apart`. */
    ghost predicate Listed(apart: set<Id>) reads this, heap {
      && heap.Valid() && heap.marked == {} && ProperTransfers(heap.store)
      && Lists(dag, heap.store, apart)
    }

    constructor ()
      ensures fresh(heap) && Listed({}) && heap.store == map[] && activities == map[] && dag == []
    {
      heap := new ActivityGraph();
      activities, dag, root, end := map[], [], 0, 0;
    }

    method CreateNode(n: DotNode, ghost sizes: map<string, real>)
      requires Listed(EndsOf(activities)) && StandsFor(sizes, NoEdges, heap.store, activities)
      modifies this`activities, this`dag, heap
      ensures Listed(EndsOf(activities)) && StandsFor(AddNode(sizes, n), NoEdges, heap.store, activities)
    {
      hide Stands, Labelled, EndsOf, Consistent, EdgesOf, ProperTransfers;
      NamesStand(sizes.Keys, NoEdges, heap.store, activities);
      if n.name !in activities {
        ghost var s, act := heap.store, activities;
        var a := heap.Create(Exec, n.name, n.size);
        activities := activities[n.name := a];
        if n.name != "root" && n.name != "end" {
          dag := dag + [a];
        }
        ProperStill(s, heap.store, a);
        EndsGrow(act, n.name, a);
        NodeRead(sizes.Keys, s, heap.store, act, n.name, a, activities);
        assert AddNode(sizes, n).Keys == sizes.Keys + {n.name};
        NodeLabelled(sizes, s, heap.store, act, n, a);
      }
    }

    method CreateNodes(nodes: seq<DotNode>)
      requires Listed({}) && activities == map[] && dag == [] && heap.store == map[]
      modifies this`activities, this`dag, heap
      ensures Listed(EndsOf(activities)) && StandsFor(Sizes(nodes), NoEdges, heap.store, activities)
    {
      NoNodes(heap.store);
      hide Stands, Labelled, EndsOf, Consistent, EdgesOf, ProperTransfers;
      for i := 0 to |nodes|
        invariant Listed(EndsOf(activities)) && StandsFor(Sizes(nodes[..i]), NoEdges, heap.store, activities)
      {
        assert nodes[..i + 1][..i] == nodes[..i];
        CreateNode(nodes[i], Sizes(nodes[..i]));
      }
      assert nodes[..|nodes|] == nodes;
    }

    /** The node of that name, or one made up for it. */
    method FindEnd(name: string, ghost sizes: map<string, real>, ghost apart: set<Id>) returns (a: Id)
      requires Listed(apart) && StandsFor(sizes, NoEdges, heap.store, activities)
      requires name in activities ==> activities[name] in apart
      modifies heap
      ensures Listed(apart + {a}) && StandsFor(sizes, NoEdges, heap.store, activities)
      ensures a in heap.store && heap.store[a].kind == Exec && Retains(old(heap.store), heap.store)
      ensures if name in activities then a == activities[name]
              else a !in old(heap.store) && heap.store[a].name == name && heap.store[a].amount == 0.0
    {
      hide Stands, Labelled, Consistent, EdgesOf, ProperTransfers;
      NamesStand(sizes.Keys, NoEdges, heap.store, activities);
      if name in activities {
        a := activities[name];
      } else {
        ghost var s := heap.store;
        a := heap.Create(Exec, name, 0.0);
        ProperStill(s, heap.store, a);
        StandsStill(sizes.Keys, s, heap.store, activities, a);
        LabelsKept(sizes, NoEdges, NoEdges, s, heap.store, activities);
      }
    }

    method SetEnds(ghost sizes: map<string, real>)
      requires Listed(EndsOf(activities)) && StandsFor(sizes, NoEdges, heap.store, activities)
      modifies this`root, this`end, heap
      ensures Listed({root, end}) && root != end && StandsFor(sizes, NoEdges, heap.store, activities)
      ensures EndsLabelled(sizes, heap.store, root, end) && EndsNamed(sizes.Keys, activities, root, end)
    {
      hide Stands, Labelled, Consistent, EdgesOf, ProperTransfers, EndsOf;
      NamesStand(sizes.Keys, NoEdges, heap.store, activities);
      EndsIn(activities);
      root := FindEnd("root", sizes, EndsOf(activities));
      end := FindEnd("end", sizes, EndsOf(activities) + {root});
      EndsAre(activities, root, end);
      NamesStand(sizes.Keys, NoEdges, heap.store, activities);
      NamesLabelled(sizes, NoEdges, heap.store, activities);
    }

    /** A new communication between two executions. */
    method Connect(name: string, size: real, src: Id, dst: Id) returns (c: Id)
      requires heap.Valid() && src in heap.store && dst in heap.store
      modifies heap
      ensures heap.Valid() && heap.marked == old(heap.marked) && c !in old(heap.store)
      ensures var m := old(heap.store)[c := Activity(Comm, name, size, [], {})];
              && src in m && dst in m && src != c && dst != c && heap.store == Link(Link(m, src, c), c, dst)
              && EdgesOf(heap.store) == EdgesOf(old(heap.store)) + {(src, c)} + {(c, dst)} && SameActivities(m, heap.store)
    {
      hide Consistent, EdgesOf, SameActivities;
      c := heap.Create(Comm, name, size);
      ghost var m := heap.store;
      Fresh(old(heap.store), m, c, src);
      Fresh(old(heap.store), m, c, dst);
      var ok := heap.AddSuccessor(src, c);
      ghost var n := heap.store;
      ok := heap.AddSuccessor(c, dst);
      SameTransitive(m, n, heap.store);
    }

    method CreateTransfer(e: DotEdge, ghost sizes: map<string, real>, ghost g: DotGraph)
      requires Listed({root, end}) && StandsFor(sizes, g, heap.store, activities) && e.src in sizes && e.dst in sizes
      requires EdgeName(e) !in activities
      modifies this`activities, this`dag, heap
      ensures Listed({root, end}) && StandsFor(sizes, g.(comms := g.comms[EdgeName(e) := e]), heap.store, activities)
      ensures Grows(old(activities), activities, old(heap.store)) && Retains(old(heap.store), heap.store)
    {
      hide Stands, Labelled, Consistent, EdgesOf, ProperTransfers, Lists, EdgeName, Retains, Grows;
      NamesStand(sizes.Keys, g, heap.store, activities);
      var src, dst := activities[e.src], activities[e.dst];
      var c := Connect(EdgeName(e), e.size, src, dst);
      ghost var m := old(heap.store)[c := Activity(Comm, EdgeName(e), e.size, [], {})];
      activities := activities[EdgeName(e) := c];
      dag := dag + [c];
      ListsMore(old(dag), old(heap.store), heap.store, {root, end}, c);
      OneAdded(old(heap.store), m, heap.store, old(activities), EdgeName(e), c);
      CommProper(old(heap.store), m, heap.store, c, src, dst);
      TransferRead(sizes.Keys, g, old(heap.store), heap.store, old(activities), EdgeName(e), e, c,
                   g.(comms := g.comms[EdgeName(e) := e]), activities);
      TransferLabelled(sizes, g, old(heap.store), heap.store, old(activities), EdgeName(e), e, c);
    }

    /** Fails on a self link and on a link given twice. */
    method CreateEdge(e: DotEdge, ghost sizes: map<string, real>, ghost g: DotGraph) returns (ok: bool)
      requires Listed({root, end}) && StandsFor(sizes, g, heap.store, activities) && e.src in sizes && e.dst in sizes
      modifies this`activities, this`dag, heap
      ensures ok <==> ReadEdge(sizes.Keys, g, e).Some?
      ensures ok ==> Listed({root, end}) && StandsFor(sizes, ReadEdge(sizes.Keys, g, e).value, heap.store, activities)
      ensures Grows(old(activities), activities, old(heap.store)) && Retains(old(heap.store), heap.store)
    {
      hide Stands, Labelled, Consistent, EdgesOf, ProperTransfers;
      NamesStand(sizes.Keys, g, heap.store, activities);
      if e.size > 0.0 {
        if EdgeName(e) !in activities {
          CreateTransfer(e, sizes, g);
        }
        ok := true;
      } else {
        var src, dst := activities[e.src], activities[e.dst];
        LinkIsNew(sizes.Keys, g, heap.store, activities, e.src, e.dst);
        ok := heap.AddSuccessor(src, dst);
        if ok {
          LinkProper(old(heap.store), heap.store, src, dst);
          LinkRead(sizes.Keys, g, old(heap.store), heap.store, activities, e.src, e.dst);
          LabelsKept(sizes, g, ReadEdge(sizes.Keys, g, e).value, old(heap.store), heap.store, activities);
        }
      }
    }

    method CreateEdges(edges: seq<DotEdge>, ghost sizes: map<string, real>) returns (ok: bool)
      requires Listed({root, end}) && StandsFor(sizes, NoEdges, heap.store, activities)
      requires forall e :: e in edges ==> e.src in sizes && e.dst in sizes
      modifies this`activities, this`dag, heap
      ensures ok <==> ReadEdges(sizes.Keys, edges).Some?
      ensures ok ==> Listed({root, end}) && StandsFor(sizes, ReadEdges(sizes.Keys, edges).value, heap.store, activities)
      ensures Grows(old(activities), activities, old(heap.store)) && Retains(old(heap.store), heap.store)
    {
      hide Stands, Labelled, Consistent, EdgesOf, ProperTransfers, ReadEdge;
      for i := 0 to |edges|
        invariant Listed({root, end}) && ReadEdges(sizes.Keys, edges[..i]).Some?
        invariant Grows(old(activities), activities, old(heap.store)) && Retains(old(heap.store), heap.store)
        invariant StandsFor(sizes, ReadEdges(sizes.Keys, edges[..i]).value, heap.store, activities)
      {
        assert edges[..i + 1][..i] == edges[..i];
        ok := CreateEdge(edges[i], sizes, ReadEdges(sizes.Keys, edges[..i]).value);
        if !ok {
          StillFails(sizes.Keys, edges, i + 1);
          return;
        }
      }
      assert edges[..|edges|] == edges;
      ok := true;
    }

    /** Connects to root an activity without predecessors, and to end one without successors. */
    method Anchor(a: Id, ghost D: set<(Id, Id)>, ghost done: set<Id>)
      requires heap.Valid() && ProperTransfers(heap.store) && a in heap.store && Anchoring(D, heap.store, root, end, done)
      modifies heap`store
      ensures heap.Valid() && ProperTransfers(heap.store) && Anchoring(D, heap.store, root, end, done + {a})
      ensures SameActivities(old(heap.store), heap.store)
    {
      hide ProperTransfers, Anchoring, Consistent, EdgesOf;
      EndsLive(D, heap.store, root, end, done);
      LooseIsExec(heap.store, a);
      Unlinked(heap.store, root, a, end);
      ghost var s := heap.store;
      if heap.store[a].dependencies == {} && a != root {
        var ok := heap.AddSuccessor(root, a);
        LinkProper(s, heap.store, root, a);
      }
      AnchoredIn(D, s, heap.store, root, end, done, a);
      LooseIsExec(heap.store, a);
      Unlinked(heap.store, root, a, end);
      ghost var m := heap.store;
      if heap.store[a].successors == [] && a != end {
        var ok := heap.AddSuccessor(a, end);
        LinkProper(m, heap.store, a, end);
      }
      AnchoredOut(D, m, heap.store, root, end, done, a);
    }

    method AnchorAll(ghost D: set<(Id, Id)>)
      requires heap.Valid() && ProperTransfers(heap.store) && D == heap.Edges() && root != end
      requires root in heap.store && end in heap.store && heap.store[root].kind == heap.store[end].kind == Exec
      requires forall x :: x in dag <==> x in heap.store
      modifies heap`store
      ensures heap.Valid() && ProperTransfers(heap.store) && heap.store.Keys == old(heap.store).Keys
      ensures Anchored(D, heap.Edges(), heap.store.Keys, root, end) && SameActivities(old(heap.store), heap.store)
    {
      hide ProperTransfers, Anchoring, Consistent, EdgesOf, Anchored, SameActivities;
      NoneAnchored(heap.store, root, end);
      SameSelf(heap.store);
      ghost var done := {};
      for k := 0 to |dag|
        invariant heap.Valid() && ProperTransfers(heap.store) && heap.store.Keys == old(heap.store).Keys
        invariant SameActivities(old(heap.store), heap.store)
        invariant Anchoring(D, heap.store, root, end, done) && forall x :: x in done <==> x in dag[..k]
      {
        assert dag[k] in dag;
        ghost var s := heap.store;
        Anchor(dag[k], D, done);
        SameTransitive(old(heap.store), s, heap.store);
        done := done + {dag[k]};
      }
      assert dag[..|dag|] == dag;
      AllAnchored(D, heap.store, root, end, done);
    }

    method DestroyAll()
      requires heap.Valid() && NoRepeats(dag) && forall x :: x in dag <==> x in heap.store
      modifies this`dag, heap
      ensures dag == [] && heap.store == map[]
    {
      hide Consistent, EdgesOf;
      var all := dag;
      for k := 0 to |all|
        invariant heap.Valid() && forall x :: x in heap.store <==> x in all[k..]
      {
        assert all[k..] == [all[k]] + all[k + 1..] && all[k] !in all[k + 1..];
        heap.Destroy(all[k]);
      }
      assert heap.store.Keys == {};
      dag := [];
    }

    method Read(nodes: seq<DotNode>, edges: seq<DotEdge>) returns (ok: bool)
      requires Listed({}) && activities == map[] && dag == [] && heap.store == map[]
      requires forall e :: e in edges ==> e.src in Sizes(nodes) && e.dst in Sizes(nodes)
      modifies this, heap
      ensures ok <==> ReadEdges(Sizes(nodes).Keys, edges).Some?
      ensures ok ==> Listed({root, end}) && StandsFor(Sizes(nodes), ReadEdges(Sizes(nodes).Keys, edges).value, heap.store, activities)
      ensures ok ==> EndsNamed(Sizes(nodes).Keys, activities, root, end) && root != end && EndsLabelled(Sizes(nodes), heap.store, root, end)
    {
      hide Stands, Labelled, Consistent, EdgesOf, ProperTransfers, NoRepeats;
      CreateNodes(nodes);
      SetEnds(Sizes(nodes));
      ok := CreateEdges(edges, Sizes(nodes));
    }

    /** Puts root first and end last, and anchors all activities on them. */
    method Enclose(ghost sizes: map<string, real>, ghost g: DotGraph) returns (ghost D: set<(Id, Id)>)
      requires Listed({root, end}) && StandsFor(sizes, g, heap.store, activities) && root != end
      requires EndsNamed(sizes.Keys, activities, root, end) && EndsLabelled(sizes, heap.store, root, end)
      modifies this`dag, heap`store
      ensures heap.Valid() && ProperTransfers(heap.store) && Drawn(sizes.Keys, g, activities, D)
      ensures Anchored(D, heap.Edges(), heap.store.Keys, root, end)
      ensures NoRepeats(dag) && (forall x :: x in dag <==> x in heap.store) && |dag| >= 2 && dag[0] == root && dag[|dag| - 1] == end
      ensures Labelled(sizes, g, heap.store, activities) && EndsLabelled(sizes, heap.store, root, end)
      ensures Placed(sizes.Keys, heap.store, activities)
    {
      hide Stands, Labelled, Consistent, EdgesOf, ProperTransfers, Anchored, Drawn, EndsNamed, EndsLabelled, Placed;
      dag := [root] + dag + [end];
      D := heap.Edges();
      DrawnAs(sizes.Keys, g, heap.store, activities);
      EndsStand(sizes, heap.store, root, end);
      ghost var s := heap.store;
      AnchorAll(D);
      LabelsKept(sizes, g, g, s, heap.store, activities);
      PlacesKept(sizes.Keys, g, s, heap.store, activities);
      EndsKept(sizes, s, heap.store, root, end);
    }

    /** Fails exactly when an edge cannot be linked; otherwise leaves the anchored graph, root first and end last, or
        nothing when the edges read are cyclic, enter a node called root or leave a node called end. */
    method Load(nodes: seq<DotNode>, edges: seq<DotEdge>) returns (ok: bool, ghost D: set<(Id, Id)>)
      requires Listed({}) && activities == map[] && dag == [] && heap.store == map[]
      requires forall e :: e in edges ==> e.src in Sizes(nodes) && e.dst in Sizes(nodes)
      modifies this, heap
      ensures ok <==> LinksOnce(edges)
      ensures ok ==> ReadEdges(Sizes(nodes).Keys, edges).Some?
      ensures ok ==> Drawn(Sizes(nodes).Keys, ReadEdges(Sizes(nodes).Keys, edges).value, activities, D)
      ensures ok ==> EndsNamed(Sizes(nodes).Keys, activities, root, end)
      ensures ok ==> (dag != [] <==> && Acyclic(D) && ("root" in Sizes(nodes) ==> forall z: Id :: (z, root) !in D)
                                     && ("end" in Sizes(nodes) ==> forall z: Id :: (end, z) !in D))
      ensures ok && dag != [] ==> Anchored(D, heap.Edges(), heap.store.Keys, root, end) && Acyclic(heap.Edges())
      ensures ok && dag != [] ==> NoRepeats(dag) && (forall x :: x in dag <==> x in heap.store)
      ensures ok && dag != [] ==> dag[0] == root && dag[|dag| - 1] == end
      ensures ok && dag != [] ==> Labelled(Sizes(nodes), ReadEdges(Sizes(nodes).Keys, edges).value, heap.store, activities)
      ensures ok && dag != [] ==> Placed(Sizes(nodes).Keys, heap.store, activities) && EndsLabelled(Sizes(nodes), heap.store, root, end)
      ensures ok && dag == [] ==> heap.store == map[]
    {
      hide Stands, Labelled, Consistent, EdgesOf, ProperTransfers, Anchored, Acyclic, Drawn, ReadEdges, EndsNamed, LinksOnce, Sizes,
           EndsLabelled, Placed;
      D := {};
      ReadableIff(Sizes(nodes).Keys, edges);
      ok := Read(nodes, edges);
      if !ok { return; }
      ghost var g := ReadEdges(Sizes(nodes).Keys, edges).value;
      D := Enclose(Sizes(nodes), g);
      EndsApart(Sizes(nodes).Keys, g, activities, D, root, end);
      AnchoringVerdict(D, heap.Edges(), heap.store.Keys, root, end);
      var acyclic := heap.CheckForCycle(dag);
      if !acyclic {
        DestroyAll();
      }
    }
  }

  /** Activities have been added, all of them new. */
  ghost predicate Grows(act: map<string, Id>, act': map<string, Id>, s: Store) {
    && (forall n :: n in act ==> n in act' && act'[n] == act[n])
    && (forall n :: n in act' && n !in act ==> act'[n] !in s)
  }

  lemma OneAdded(s: Store, m: Store, s': Store, act: map<string, Id>, n: string, c: Id)
    requires c !in s && c in m && m == s[c := m[c]] && SameActivities(m, s') && n !in act
    ensures Retains(s, s') && Grows(act, act[n := c], s)
  {
  }

  /** Root and end are the nodes of that name, or no node and no transfer. */
  ghost predicate EndsNamed(names: set<string>, act: map<string, Id>, root: Id, end: Id) {
    && (if "root" in names then "root" in act && act["root"] == root else root !in act.Values)
    && (if "end" in names then "end" in act && act["end"] == end else end !in act.Values)
  }

  ghost predicate EndsLabelled(sizes: map<string, real>, s: Store, root: Id, end: Id) {
    && root in s && end in s && s[root].kind == s[end].kind == Exec && s[root].name == "root" && s[end].name == "end"
    && s[root].amount == (if "root" in sizes then sizes["root"] else 0.0)
    && s[end].amount == (if "end" in sizes then sizes["end"] else 0.0)
  }

  lemma EndsStand(sizes: map<string, real>, s: Store, root: Id, end: Id)
    requires EndsLabelled(sizes, s, root, end)
    ensures root in s && end in s && s[root].kind == s[end].kind == Exec
  {
  }

  lemma EndsKept(sizes: map<string, real>, s: Store, s': Store, root: Id, end: Id)
    requires EndsLabelled(sizes, s, root, end) && Retains(s, s')
    ensures EndsLabelled(sizes, s', root, end)
  {
  }

  /** Ends that are no nodes take no part in the graph read. */
  lemma EndsApart(nodes: set<string>, g: DotGraph, act: map<string, Id>, D: set<(Id, Id)>, root: Id, end: Id)
    requires Drawn(nodes, g, act, D) && EndsNamed(nodes, act, root, end)
    ensures "root" !in nodes ==> forall z: Id :: (z, root) !in D && (root, z) !in D
    ensures "end" !in nodes ==> forall z: Id :: (z, end) !in D && (end, z) !in D
  {
    forall x: Id, y: Id | (x, y) in D ensures x in act.Values && y in act.Values { }
  }

  /** The edges are those of the graph read. */
  ghost predicate Drawn(nodes: set<string>, g: DotGraph, act: map<string, Id>, D: set<(Id, Id)>) {
    && act.Keys == nodes + g.comms.Keys
    && (forall n, m :: n in act && m in act && act[n] == act[m] ==> n == m)
    && (forall l :: l in g.links ==> l.0 in nodes && l.1 in nodes)
    && (forall n :: n in g.comms ==> g.comms[n].src in nodes && g.comms[n].dst in nodes)
    && D == GraphEdges(g, act)
  }

  lemma DrawnAs(nodes: set<string>, g: DotGraph, s: Store, act: map<string, Id>)
    requires Stands(nodes, g, s, act)
    ensures Drawn(nodes, g, act, EdgesOf(s))
  {
  }

  /** Activities of `done` have a predecessor unless root, and a successor unless end. */
  ghost predicate Anchoring(D: set<(Id, Id)>, s: Store, root: Id, end: Id, done: set<Id>) {
    && root in s && end in s && root != end && s[root].kind == s[end].kind == Exec
    && D <= EdgesOf(s)
    && (forall x: Id, y: Id :: (x, y) in EdgesOf(s) && (x, y) !in D ==>
          (x == root && y != root && NoneBefore(D, y)) || (y == end && x != end && NoneAfter(D, x)))
    && (forall x :: x in done ==> x in s && (x != root ==> s[x].dependencies != {}) && (x != end ==> s[x].successors != []))
  }

  lemma EndsLive(D: set<(Id, Id)>, s: Store, root: Id, end: Id, done: set<Id>)
    requires Anchoring(D, s, root, end, done)
    ensures root in s && end in s && root != end && s[root].kind == s[end].kind == Exec
  {
  }

  lemma NoneAnchored(s: Store, root: Id, end: Id)
    requires root in s && end in s && root != end && s[root].kind == s[end].kind == Exec
    ensures Anchoring(EdgesOf(s), s, root, end, {})
  {
  }

  lemma LooseIsExec(s: Store, a: Id)
    requires ProperTransfers(s) && a in s
    ensures s[a].dependencies == {} || s[a].successors == [] ==> s[a].kind == Exec
  {
    if s[a].kind == Comm { assert ProperTransfer(s, a); }
  }

  lemma NoLinks(D: set<(Id, Id)>, s: Store, a: Id)
    requires Consistent(s) && D <= EdgesOf(s) && a in s
    ensures s[a].dependencies == {} ==> NoneBefore(D, a)
    ensures s[a].successors == [] ==> NoneAfter(D, a)
  {
    forall z: Id | (z, a) in D ensures z in s[a].dependencies { assert Succ(s, z, a) && Pred(s, z, a); }
    forall z: Id | (a, z) in D ensures z in s[a].successors { assert Succ(s, a, z); }
  }

  lemma AnchoredIn(D: set<(Id, Id)>, s: Store, s': Store, root: Id, end: Id, done: set<Id>, a: Id)
    requires Consistent(s) && Anchoring(D, s, root, end, done) && a in s
    requires if s[a].dependencies == {} && a != root then s' == Link(s, root, a) && EdgesOf(s') == EdgesOf(s) + {(root, a)} else s' == s
    ensures Anchoring(D, s', root, end, done) && (a != root ==> s'[a].dependencies != {})
  {
    NoLinks(D, s, a);
    hide EdgesOf, NoneBefore, NoneAfter, Consistent;
    if s[a].dependencies == {} && a != root { assert root in s'[a].dependencies; }
  }

  lemma AnchoredOut(D: set<(Id, Id)>, s: Store, s': Store, root: Id, end: Id, done: set<Id>, a: Id)
    requires Consistent(s) && Anchoring(D, s, root, end, done) && a in s && (a != root ==> s[a].dependencies != {})
    requires if s[a].successors == [] && a != end then s' == Link(s, a, end) && EdgesOf(s') == EdgesOf(s) + {(a, end)} else s' == s
    ensures Anchoring(D, s', root, end, done + {a})
  {
    NoLinks(D, s, a);
    hide EdgesOf, NoneBefore, NoneAfter, Consistent;
    if s[a].successors == [] && a != end { assert a in s'[end].dependencies; }
  }

  lemma AllAnchored(D: set<(Id, Id)>, s: Store, root: Id, end: Id, done: set<Id>)
    requires Consistent(s) && Anchoring(D, s, root, end, done) && forall x :: x in s ==> x in done
    ensures Anchored(D, EdgesOf(s), s.Keys, root, end)
  {
    var E := EdgesOf(s);
    forall x: Id, y: Id | (x, y) in E ensures x in s && y in s { assert Succ(s, x, y) && Pred(s, x, y); }
    forall y | y in s.Keys && y != root ensures HasNextIn(Reversed(E), s.Keys, y) {
      var x :| x in s[y].dependencies;
      assert Pred(s, x, y) && Succ(s, x, y);
      assert (y, x) in Reversed(E);
    }
    forall x | x in s.Keys && x != end ensures HasNextIn(E, s.Keys, x) {
      assert Succ(s, x, s[x].successors[0]) && Pred(s, x, s[x].successors[0]);
      assert (x, s[x].successors[0]) in E;
    }
  }

  lemma {:induction false} StillFails(names: set<string>, edges: seq<DotEdge>, n: nat)
    requires n <= |edges| && ReadEdges(names, edges[..n]).None?
    ensures ReadEdges(names, edges).None?
    decreases |edges|
  {
    if n < |edges| {
      assert edges[..|edges| - 1][..n] == edges[..n];
      StillFails(names, edges[..|edges| - 1], n);
    } else {
      assert edges[..n] == edges;
    }
  }

  ghost predicate Lists(dag: seq<Id>, s: Store, apart: set<Id>) {
    NoRepeats(dag) && (forall x :: x in s <==> x in dag || x in apart) && (forall x :: x in apart ==> x !in dag)
  }

  lemma ListsMore(dag: seq<Id>, s: Store, s': Store, apart: set<Id>, c: Id)
    requires Lists(dag, s, apart) && c !in s && s'.Keys == s.Keys + {c}
    ensures Lists(dag + [c], s', apart)
  {
  }

  lemma NamesStand(names: set<string>, g: DotGraph, s: Store, act: map<string, Id>)
    requires Stands(names, g, s, act)
    ensures names <= act.Keys && (forall n :: n in act <==> n in names || n in g.comms)
    ensures (forall n :: n in act ==> act[n] in s) && (forall n :: n in names ==> s[act[n]].kind == Exec)
    ensures forall n, m :: n in act && m in act && act[n] == act[m] ==> n == m
  {
    hide GraphEdges;
  }

  lemma NoNodes(s: Store)
    requires s == map[]
    ensures StandsFor(Sizes([]), NoEdges, s, map[]) && EndsOf(map[]) == {}
  {
    assert EdgesOf(s) == {};
  }

  lemma StandsStill(names: set<string>, s: Store, s': Store, act: map<string, Id>, a: Id)
    requires Stands(names, DotGraph({}, map[]), s, act) && a !in s && a in s' && s' == s[a := s'[a]] && EdgesOf(s') == EdgesOf(s)
    ensures Stands(names, DotGraph({}, map[]), s', act)
  {
    hide EdgesOf;
  }

  lemma CommProper(s: Store, m: Store, s': Store, c: Id, src: Id, dst: Id)
    requires Consistent(s) && ProperTransfers(s) && c !in s && src in s && dst in s && s[src].kind == s[dst].kind == Exec
    requires c in m && m == s[c := m[c]] && m[c].kind == Comm && m[c].successors == [] && m[c].dependencies == {}
    requires src != c && dst != c && s' == Link(Link(m, src, c), c, dst)
    ensures ProperTransfers(s')
  {
    forall t | t in s' && s'[t].kind == Comm ensures ProperTransfer(s', t) {
      if t == c {
        assert s'[c].successors == [dst] && s'[c].dependencies == {src};
      } else {
        assert ProperTransfer(s, t);
        assert s'[t].successors == s[t].successors && s'[t].dependencies == s[t].dependencies;
      }
    }
  }

  lemma LinkProper(s: Store, s': Store, src: Id, dst: Id)
    requires ProperTransfers(s) && src in s && dst in s && src != dst && s[src].kind == s[dst].kind == Exec && s' == Link(s, src, dst)
    ensures ProperTransfers(s')
  {
    forall t | t in s' && s'[t].kind == Comm ensures ProperTransfer(s', t) {
      assert ProperTransfer(s, t);
    }
  }

  /** The executions kept out of the list: those named root and end. */
  ghost function EndsOf(act: map<string, Id>): set<Id> { set n | n in {"root", "end"} && n in act :: act[n] }

  lemma EndsIn(act: map<string, Id>)
    ensures "root" in act ==> act["root"] in EndsOf(act)
    ensures "end" in act ==> act["end"] in EndsOf(act)
  {
  }

  lemma EndsAre(act: map<string, Id>, root: Id, end: Id)
    requires ("root" in act ==> act["root"] == root) && ("end" in act ==> act["end"] == end)
    ensures EndsOf(act) + {root} + {end} == {root, end}
  {
  }

  lemma EndsGrow(act: map<string, Id>, n: string, a: Id)
    requires n !in act
    ensures EndsOf(act[n := a]) == EndsOf(act) + if n == "root" || n == "end" then {a} else {}
  {
    var act' := act[n := a];
    forall m | m in act ensures m in act' && act'[m] == act[m] { }
    assert n in act';
  }

  lemma ProperStill(s: Store, s': Store, a: Id)
    requires Consistent(s) && ProperTransfers(s) && a !in s && a in s' && s' == s[a := s'[a]] && s'[a].kind == Exec
    ensures ProperTransfers(s')
  {
    forall c | c in s' && s'[c].kind == Comm ensures ProperTransfer(s', c) {
      assert ProperTransfer(s, c);
    }
  }
}
