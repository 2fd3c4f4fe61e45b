/** What a DAX document declares, what its expansion into executions and transfers is, and how the two relate. */
module DaxGraph {
  import opened Common
  import opened Graphs
  import opened Activities

  datatype Use = Use(file: string, size: real, input: bool)
  datatype Job = Job(id: string, name: string, runtime: real, uses: seq<Use>)
  datatype Child = Child(ref: string, parents: seq<string>)
  datatype Dax = Dax(jobs: seq<Job>, children: seq<Child>)

  // ----- The declared graph -----

  datatype Node = JobNode(i: nat) | FileNode(name: string)

  /** Position of the first job with that id, or -1. */
  function Lookup(jobs: seq<Job>, id: string): (i: int)
    ensures -1 <= i < |jobs|
    ensures i >= 0 ==> jobs[i].id == id && forall k :: 0 <= k < i ==> jobs[k].id != id
    ensures i < 0 ==> forall k :: 0 <= k < |jobs| ==> jobs[k].id != id
  {
    if jobs == [] then -1
    else
      var k := Lookup(jobs[..|jobs| - 1], id);
      if k >= 0 then k else if jobs[|jobs| - 1].id == id then |jobs| - 1 else -1
  }

  predicate Writes(job: Job, f: string) { exists u :: u in job.uses && !u.input && u.file == f }

  predicate Reads(job: Job, f: string) { exists u :: u in job.uses && u.input && u.file == f }

  /** The element lists job `i` as a parent of job `j`. */
  predicate Orders(jobs: seq<Job>, c: Child, i: nat, j: nat) {
    Lookup(jobs, c.ref) == j && exists p :: p in c.parents && Lookup(jobs, p) == i
  }

  predicate Control(d: Dax, i: nat, j: nat) {
    exists c :: c in d.children && Orders(d.jobs, c, i, j)
  }

  predicate Declared(d: Dax, n: Node, m: Node) {
    match (n, m)
    case (JobNode(i), FileNode(f)) => i < |d.jobs| && Writes(d.jobs[i], f)
    case (FileNode(f), JobNode(i)) => i < |d.jobs| && Reads(d.jobs[i], f)
    case (JobNode(i), JobNode(j)) => Control(d, i, j)
    case (FileNode(_), FileNode(_)) => false
  }

  /** All uses, in document order. */
  function AllUses(jobs: seq<Job>): seq<Use> {
    if jobs == [] then [] else AllUses(jobs[..|jobs| - 1]) + jobs[|jobs| - 1].uses
  }

  ghost function FileNames(d: Dax): set<string> { set u | u in AllUses(d.jobs) :: u.file }

  /** Size given by the first use of the file. */
  function FirstSize(uses: seq<Use>, f: string): real {
    if uses == [] then 0.0 else if uses[0].file == f then uses[0].size else FirstSize(uses[1..], f)
  }

  ghost function Nodes(d: Dax): set<Node> {
    (set i | 0 <= i < |d.jobs| :: JobNode(i)) + (set f | f in FileNames(d) :: FileNode(f))
  }

  lemma {:induction false} UsesCollected(jobs: seq<Job>, i: nat, u: Use)
    requires i < |jobs| && u in jobs[i].uses
    ensures u in AllUses(jobs)
  {
    if i < |jobs| - 1 {
      UsesCollected(jobs[..|jobs| - 1], i, u);
    }
  }

  lemma {:induction false} UsesOrigin(jobs: seq<Job>, u: Use)
    requires u in AllUses(jobs)
    ensures exists i :: 0 <= i < |jobs| && u in jobs[i].uses
  {
    var n := |jobs| - 1;
    if u in jobs[n].uses {
    } else {
      UsesOrigin(jobs[..n], u);
      var i :| 0 <= i < |jobs[..n]| && u in jobs[..n][i].uses;
      assert u in jobs[i].uses;
    }
  }

  ghost function DeclaredEdges(d: Dax): (E: set<(Node, Node)>)
    ensures forall n, m :: (n, m) in E <==> Declared(d, n, m)
  {
    var E := set n, m | n in Nodes(d) && m in Nodes(d) && Declared(d, n, m) :: (n, m);
    assert forall n, m :: Declared(d, n, m) ==> (n, m) in E by {
      forall n, m | Declared(d, n, m) ensures (n, m) in E { DeclaredEnds(d, n, m); }
    }
    E
  }

  lemma DeclaredEnds(d: Dax, n: Node, m: Node)
    requires Declared(d, n, m)
    ensures n in Nodes(d) && m in Nodes(d)
  {
    match (n, m)
    case (JobNode(i), FileNode(f)) =>
      var u :| u in d.jobs[i].uses && u.file == f;
      UsesCollected(d.jobs, i, u);
    case (FileNode(f), JobNode(i)) =>
      var u :| u in d.jobs[i].uses && u.file == f;
      UsesCollected(d.jobs, i, u);
    case (JobNode(i), JobNode(j)) =>
  }

  // ----- The expanded graph -----

  /** One copy of a file, from one execution to another. */
  datatype Transfer = Transfer(from: Id, file: string, to: Id)

  /** Job `i` is execution `job[i]`; activity `t` is the transfer `origin[t]`. */
  datatype Layout = Layout(job: seq<Id>, root: Id, end: Id, origin: map<Id, Transfer>)

  ghost predicate Separate(d: Dax, l: Layout) {
    && |l.job| == |d.jobs| && NoRepeats(l.job)
    && l.root != l.end && l.root !in l.job && l.end !in l.job
    && l.root !in l.origin && l.end !in l.origin
    && forall i :: 0 <= i < |l.job| ==> l.job[i] !in l.origin
  }

  predicate Produced(d: Dax, f: string) { exists i :: 0 <= i < |d.jobs| && Writes(d.jobs[i], f) }

  predicate Consumed(d: Dax, f: string) { exists i :: 0 <= i < |d.jobs| && Reads(d.jobs[i], f) }

  /** A producer of the file, or the root if it has none. */
  predicate IsSource(d: Dax, l: Layout, f: string, x: Id) {
    if Produced(d, f) then exists i :: 0 <= i < |d.jobs| && i < |l.job| && Writes(d.jobs[i], f) && l.job[i] == x else x == l.root
  }

  /** A consumer of the file, or the end if it has none. */
  predicate IsTarget(d: Dax, l: Layout, f: string, x: Id) {
    if Consumed(d, f) then exists i :: 0 <= i < |d.jobs| && i < |l.job| && Reads(d.jobs[i], f) && l.job[i] == x else x == l.end
  }

  ghost predicate Wanted(d: Dax, l: Layout, tr: Transfer) {
    tr.file in FileNames(d) && IsSource(d, l, tr.file, tr.from) && IsTarget(d, l, tr.file, tr.to)
  }

  /** Exactly one transfer per file and pair of a source and a target of it. */
  ghost predicate TransfersMatch(d: Dax, l: Layout) {
    && (forall t :: t in l.origin ==> Wanted(d, l, l.origin[t]))
    && (forall tr :: Wanted(d, l, tr) ==> tr in l.origin.Values)
    && (forall t, u :: t in l.origin && u in l.origin && l.origin[t] == l.origin[u] ==> t == u)
  }

  predicate ControlLink(d: Dax, l: Layout, x: Id, y: Id) {
    exists i, j :: 0 <= i < |l.job| && 0 <= j < |l.job| && l.job[i] == x && l.job[j] == y && Control(d, i, j)
  }

  /** Links present before executions are anchored on root and end. */
  predicate Core(d: Dax, l: Layout, x: Id, y: Id) {
    || ControlLink(d, l, x, y)
    || (y in l.origin && l.origin[y].from == x)
    || (x in l.origin && l.origin[x].to == y)
  }

  ghost predicate Anchor(d: Dax, l: Layout, x: Id, y: Id) {
    || (x == l.root && y in l.job && forall z :: !Core(d, l, z, y))
    || (y == l.end && x in l.job && forall z :: !Core(d, l, x, z))
  }

  ghost predicate Expanded(d: Dax, l: Layout, E: set<(Id, Id)>) {
    && Separate(d, l) && TransfersMatch(d, l)
    && forall x: Id, y: Id :: (x, y) in E <==> Core(d, l, x, y) || Anchor(d, l, x, y)
  }

  ghost predicate Activity(l: Layout, x: Id) { x == l.root || x == l.end || x in l.job || x in l.origin }

  lemma OriginEnds(d: Dax, l: Layout, t: Id)
    requires Separate(d, l) && TransfersMatch(d, l) && t in l.origin
    ensures l.origin[t].from == l.root || l.origin[t].from in l.job
    ensures l.origin[t].to == l.end || l.origin[t].to in l.job
  {
    assert Wanted(d, l, l.origin[t]);
  }

  /** Shape of the expanded graph around each kind of activity. */
  lemma LinkShape(d: Dax, l: Layout, E: set<(Id, Id)>, x: Id, y: Id)
    requires Expanded(d, l, E) && (x, y) in E
    ensures y != l.root && x != l.end
    ensures Activity(l, x) && Activity(l, y)
    ensures x in l.job && y in l.job ==> ControlLink(d, l, x, y)
    ensures y in l.origin ==> l.origin[y].from == x
    ensures x in l.origin ==> l.origin[x].to == y
  {
    if y in l.origin { OriginEnds(d, l, y); }
    if x in l.origin { OriginEnds(d, l, x); }
  }

  ghost function JobNodes(d: Dax): set<Node> { set i | 0 <= i < |d.jobs| :: JobNode(i) }

  ghost function Executions(l: Layout): set<Id> { set x | x in l.job }

  ghost function Place(d: Dax, l: Layout): (m: map<Node, Id>)
    requires |l.job| == |d.jobs|
    ensures m.Keys == JobNodes(d) && forall i :: 0 <= i < |d.jobs| ==> m[JobNode(i)] == l.job[i]
  {
    map n | n in JobNodes(d) :: l.job[n.i]
  }

  ghost function JobOf(l: Layout, x: Id): (i: nat)
    requires x in l.job
    ensures i < |l.job| && l.job[i] == x
  {
    var i: nat :| i < |l.job| && l.job[i] == x; i
  }

  ghost function Origins(d: Dax, l: Layout): (m: map<Id, Node>)
    requires Separate(d, l)
    ensures m.Keys == Executions(l)
    ensures forall i: nat :: i < |l.job| ==> l.job[i] in m && m[l.job[i]] == JobNode(i)
  {
    map x | x in l.job :: JobNode(JobOf(l, x))
  }

  lemma TransferLinks(d: Dax, l: Layout, E: set<(Id, Id)>, i: nat, f: string, j: nat)
    requires Expanded(d, l, E)
    requires i < |d.jobs| && j < |d.jobs| && Writes(d.jobs[i], f) && Reads(d.jobs[j], f)
    ensures Reaches(E, l.job[i], l.job[j])
  {
    var tr := Transfer(l.job[i], f, l.job[j]);
    var u :| u in d.jobs[i].uses && u.file == f;
    UsesCollected(d.jobs, i, u);
    assert Wanted(d, l, tr);
    var t :| t in l.origin && l.origin[t] == tr;
    assert Core(d, l, l.job[i], t) && Core(d, l, t, l.job[j]);
    EdgeReaches(E, l.job[i], t);
    EdgeReaches(E, t, l.job[j]);
    ReachesTransitive(E, l.job[i], t, l.job[j]);
  }

  lemma DeclaredMatched(d: Dax, l: Layout, E: set<(Id, Id)>)
    requires Expanded(d, l, E)
    ensures CrossesSingly(DeclaredEdges(d), JobNodes(d))
    ensures HopsMatched(DeclaredEdges(d), JobNodes(d), E, Place(d, l))
  {
    var D, V, m := DeclaredEdges(d), JobNodes(d), Place(d, l);
    forall n, h, k | n in V && h !in V && (n, h) in D && (h, k) in D ensures k in V {
      DeclaredEnds(d, n, h);
      DeclaredEnds(d, h, k);
    }
    forall n, k | n in V && k in V && (n, k) in D ensures Reaches(E, m[n], m[k]) {
      assert ControlLink(d, l, l.job[n.i], l.job[k.i]);
      EdgeReaches(E, m[n], m[k]);
    }
    forall n, h, k | n in V && h !in V && k in V && (n, h) in D && (h, k) in D ensures Reaches(E, m[n], m[k]) {
      DeclaredEnds(d, n, h);
      TransferLinks(d, l, E, n.i, h.name, k.i);
    }
  }

  lemma ExpandedMatched(d: Dax, l: Layout, E: set<(Id, Id)>)
    requires Expanded(d, l, E)
    ensures CrossesSingly(E, Executions(l))
    ensures HopsMatched(E, Executions(l), DeclaredEdges(d), Origins(d, l))
  {
    var D, V, m := DeclaredEdges(d), Executions(l), Origins(d, l);
    forall a, h, y | a in V && h !in V && (a, h) in E && (h, y) in E ensures y in V || forall z :: (y, z) !in E {
      LinkShape(d, l, E, a, h);
      LinkShape(d, l, E, h, y);
      OriginEnds(d, l, h);
      if z :| (y, z) in E { LinkShape(d, l, E, y, z); }
    }
    forall a, b | a in V && b in V && (a, b) in E ensures Reaches(D, m[a], m[b]) {
      LinkShape(d, l, E, a, b);
      var i: nat, j: nat :| i < |l.job| && j < |l.job| && l.job[i] == a && l.job[j] == b && Control(d, i, j);
      assert Declared(d, JobNode(i), JobNode(j));
      EdgeReaches(D, m[a], m[b]);
    }
    forall a, h, b | a in V && h !in V && b in V && (a, h) in E && (h, b) in E ensures Reaches(D, m[a], m[b]) {
      LinkShape(d, l, E, a, h);
      LinkShape(d, l, E, h, b);
      TransferDeclared(d, l, h);
      var f := FileNode(l.origin[h].file);
      EdgeReaches(D, m[a], f);
      EdgeReaches(D, f, m[b]);
      ReachesTransitive(D, m[a], f, m[b]);
    }
  }

  lemma TransferDeclared(d: Dax, l: Layout, t: Id)
    requires Separate(d, l) && TransfersMatch(d, l) && t in l.origin
    requires l.origin[t].from in l.job && l.origin[t].to in l.job
    ensures Declared(d, Origins(d, l)[l.origin[t].from], FileNode(l.origin[t].file))
    ensures Declared(d, FileNode(l.origin[t].file), Origins(d, l)[l.origin[t].to])
  {
    assert Wanted(d, l, l.origin[t]);
  }

  /** The expansion preserves meaning: between jobs, it adds and loses no precedence. */
  lemma ExpansionPreservesPrecedence(d: Dax, l: Layout, E: set<(Id, Id)>, i: nat, j: nat)
    requires Expanded(d, l, E) && i < |d.jobs| && j < |d.jobs|
    ensures Reaches(E, l.job[i], l.job[j]) <==> Reaches(DeclaredEdges(d), JobNode(i), JobNode(j))
  {
    var D := DeclaredEdges(d);
    if n: nat :| n >= 1 && Steps(D, JobNode(i), JobNode(j), n) {
      DeclaredMatched(d, l, E);
      HopsSimulated(D, JobNodes(d), E, Place(d, l), JobNode(i), JobNode(j), n);
    }
    if n: nat :| n >= 1 && Steps(E, l.job[i], l.job[j], n) {
      ExpandedMatched(d, l, E);
      HopsSimulated(E, Executions(l), D, Origins(d, l), l.job[i], l.job[j], n);
    }
  }

  /** The expansion has a cycle exactly when the declaration has one. */
  lemma ExpansionPreservesAcyclicity(d: Dax, l: Layout, E: set<(Id, Id)>)
    requires Expanded(d, l, E)
    ensures Acyclic(E) <==> Acyclic(DeclaredEdges(d))
  {
    var D := DeclaredEdges(d);
    if n :| Reaches(D, n, n) {
      var m := ReachesFirst(D, n, n);
      DeclaredEnds(d, n, m);
      var k := if n.JobNode? then n else m;
      CycleShifts(D, n, m);
      ExpansionPreservesPrecedence(d, l, E, k.i, k.i);
    }
    if x :| Reaches(E, x, x) {
      var y := ReachesFirst(E, x, x);
      CycleShifts(E, x, y);
      var n: nat :| n >= 1 && Steps(E, x, x, n);
      var w := StepsLast(E, x, x, n);
      var z := ReachesFirst(E, y, y);
      LinkShape(d, l, E, x, y);
      LinkShape(d, l, E, y, z);
      LinkShape(d, l, E, w, x);
      if x in l.origin { OriginEnds(d, l, x); }
      var i := JobOf(l, if x in l.job then x else y);
      ExpansionPreservesPrecedence(d, l, E, i, i);
    }
  }

  lemma CycleShifts<T(!new)>(E: set<(T, T)>, x: T, y: T)
    requires (x, y) in E && (y == x || Reaches(E, y, x))
    ensures Reaches(E, y, y)
  {
    EdgeReaches(E, x, y);
    if y != x { ReachesTransitive(E, y, x, y); }
  }

  /** Every job and transfer of an acyclic expansion lies on a walk from root to end. */
  lemma BetweenRootAndEnd(d: Dax, l: Layout, E: set<(Id, Id)>, x: Id)
    requires Expanded(d, l, E) && Acyclic(E) && (x in l.job || x in l.origin)
    ensures Reaches(E, l.root, x) && Reaches(E, x, l.end)
  {
    var U := {l.root, l.end} + Executions(l) + l.origin.Keys;
    forall a, b | (a, b) in E ensures a in U && b in U { LinkShape(d, l, E, a, b); }
    var s := WalkToSource(E, U, x);
    if s in l.job || s in l.origin { Linked(d, l, E, s); assert false; }
    if s == l.end { var y := ReachesFirst(E, s, x); LinkShape(d, l, E, s, y); assert false; }
    var e := WalkToSink(E, U, x);
    if e in l.job || e in l.origin { Linked(d, l, E, e); assert false; }
    if e == l.root { var y := ReachesFirst(E, e, x); assert false; }
  }

  lemma Linked(d: Dax, l: Layout, E: set<(Id, Id)>, x: Id)
    requires Expanded(d, l, E) && (x in l.job || x in l.origin)
    ensures exists p: Id :: (p, x) in E
    ensures exists q: Id :: (x, q) in E
  {
    if x in l.origin {
      assert Core(d, l, l.origin[x].from, x) && Core(d, l, x, l.origin[x].to);
    } else {
      assert Anchor(d, l, l.root, x) || exists z: Id :: Core(d, l, z, x);
      assert Anchor(d, l, x, l.end) || exists z: Id :: Core(d, l, x, z);
    }
  }
}
