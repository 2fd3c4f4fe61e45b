/** When the transfers of a load have pairwise distinct names, by the names of its jobs. */
module LoadNames {
  import opened Common
  import opened Graphs
  import opened Activities
  import opened DaxGraph
  import opened TransferNames
  import opened DaxReader
  import opened DaxExpansion

  /** What the name of a job is made of. */
  datatype Head = Head(id: string, name: string)

  function HeadName(h: Head): string { h.id + "@" + h.name }

  ghost function JobNames(heads: seq<Head>): set<string> { set i | 0 <= i < |heads| :: HeadName(heads[i]) }

  ghost function ParentNames(heads: seq<Head>): set<string> { {"root"} + JobNames(heads) }

  ghost function ChildNames(heads: seq<Head>): set<string> { {"end"} + JobNames(heads) }

  /** The document has exactly these jobs, whatever they use and however they are ordered. */
  ghost predicate Over(d: Dax, heads: seq<Head>) {
    |d.jobs| == |heads| && forall i :: 0 <= i < |heads| ==> d.jobs[i].id == heads[i].id && d.jobs[i].name == heads[i].name
  }

  ghost function NameOf(d: Dax, l: Layout, tr: Transfer): string
    requires |l.job| == |d.jobs|
  {
    TransferName(ExecName(d, l, tr.from), tr.file, ExecName(d, l, tr.to))
  }

  ghost predicate DistinctNames(d: Dax, l: Layout)
    requires |l.job| == |d.jobs|
  {
    forall t, u :: t in l.origin && u in l.origin && t != u ==> NameOf(d, l, l.origin[t]) != NameOf(d, l, l.origin[u])
  }

  /** A load: a document read without an exception, and the activities that stand for it. */
  ghost predicate IsLoad(d: Dax, l: Layout, heads: seq<Head>) {
    Over(d, heads) && Loadable(d) && Separate(d, l) && TransfersMatch(d, l)
  }

  /** Whatever activities stand for it, two transfers of the document have the same name. */
  ghost predicate Clashes(d: Dax) {
    forall l :: Separate(d, l) && TransfersMatch(d, l) ==> !DistinctNames(d, l)
  }

  /** In every load of these jobs, different transfers have different names. */
  ghost predicate AlwaysDistinct(heads: seq<Head>) {
    forall d, l :: IsLoad(d, l, heads) ==> DistinctNames(d, l)
  }

  /** The same for the loads that are not refused for a cycle. */
  ghost predicate AcyclicDistinct(heads: seq<Head>) {
    forall d, l :: IsLoad(d, l, heads) && Acyclic(DeclaredEdges(d)) ==> DistinctNames(d, l)
  }

  /** Jobs have different names, no parent's name continues another one across an underscore, and no child's name ends
      with another one. */
  ghost predicate Telling(heads: seq<Head>) {
    && (forall i, j :: 0 <= i < j < |heads| ==> HeadName(heads[i]) != HeadName(heads[j]))
    && (forall p, q :: p in ParentNames(heads) && q in ParentNames(heads) ==> !StartsWithName(q, p))
    && (forall c, e :: c in ChildNames(heads) && e in ChildNames(heads) ==> !EndsWithName(e, c))
  }

  // ----- The condition is sufficient -----

  lemma HasAt(h: Head)
    ensures '@' in HeadName(h)
  {
    assert HeadName(h)[|h.id|] == '@';
  }

  lemma ExecNameIs(d: Dax, l: Layout, heads: seq<Head>, x: Id)
    requires Over(d, heads) && Separate(d, l) && (x == l.root || x == l.end || x in l.job)
    ensures x == l.root ==> ExecName(d, l, x) == "root"
    ensures x == l.end ==> ExecName(d, l, x) == "end"
    ensures x in l.job ==> ExecName(d, l, x) == HeadName(heads[JobOf(l, x)]) && ExecName(d, l, x) in JobNames(heads)
  {
  }

  lemma ExecNamesApart(d: Dax, l: Layout, heads: seq<Head>, x: Id, y: Id)
    requires Over(d, heads) && Separate(d, l) && (forall i, j :: 0 <= i < j < |heads| ==> HeadName(heads[i]) != HeadName(heads[j]))
    requires (x == l.root || x == l.end || x in l.job) && (y == l.root || y == l.end || y in l.job)
    requires ExecName(d, l, x) == ExecName(d, l, y)
    ensures x == y
  {
    ExecNameIs(d, l, heads, x);
    ExecNameIs(d, l, heads, y);
    if x in l.job { HasAt(heads[JobOf(l, x)]); }
    if y in l.job { HasAt(heads[JobOf(l, y)]); }
    assert '@' !in "root" && '@' !in "end";
  }

  lemma PartsTold(heads: seq<Head>, p: string, f: string, c: string, q: string, g: string, e: string)
    requires Telling(heads) && p in ParentNames(heads) && q in ParentNames(heads) && c in ChildNames(heads) && e in ChildNames(heads)
    requires TransferName(p, f, c) == TransferName(q, g, e)
    ensures p == q && f == g && c == e
  {
    hide StartsWithName, EndsWithName;
    Grouped(p, f, c);
    Grouped(q, g, e);
    SameParent(p, f + "_" + c, q, g + "_" + e);
    SameChild(f, c, g, e);
  }

  lemma TellingDistinct(d: Dax, l: Layout, heads: seq<Head>, t: Id, u: Id)
    requires IsLoad(d, l, heads) && Telling(heads) && t in l.origin && u in l.origin
    requires NameOf(d, l, l.origin[t]) == NameOf(d, l, l.origin[u])
    ensures t == u
  {
    var a, b := l.origin[t], l.origin[u];
    OriginEnds(d, l, t);
    OriginEnds(d, l, u);
    ExecNameIs(d, l, heads, a.from);
    ExecNameIs(d, l, heads, a.to);
    ExecNameIs(d, l, heads, b.from);
    ExecNameIs(d, l, heads, b.to);
    PartsTold(heads, ExecName(d, l, a.from), a.file, ExecName(d, l, a.to), ExecName(d, l, b.from), b.file, ExecName(d, l, b.to));
    ExecNamesApart(d, l, heads, a.from, b.from);
    ExecNamesApart(d, l, heads, a.to, b.to);
  }

  // ----- Documents for given uses -----

  /** The uses that `q` gives to job `i`. */
  function UsesOf(q: seq<(nat, Use)>, i: nat): seq<Use> {
    if q == [] then [] else UsesOf(q[..|q| - 1], i) + if q[|q| - 1].0 == i then [q[|q| - 1].1] else []
  }

  function Doc(heads: seq<Head>, q: seq<(nat, Use)>): Dax {
    Dax(seq(|heads|, i requires 0 <= i < |heads| => Job(heads[i].id, heads[i].name, 0.0, UsesOf(q, i))), [])
  }

  lemma {:induction false} UsesOfIn(q: seq<(nat, Use)>, i: nat, u: Use)
    ensures u in UsesOf(q, i) <==> (i, u) in q
  {
    if q != [] {
      var n := |q| - 1;
      UsesOfIn(q[..n], i, u);
      assert q == q[..n] + [q[n]];
      assert (i, u) in q <==> (i, u) in q[..n] || (i, u) == q[n];
    }
  }

  ghost predicate OnceEach(q: seq<(nat, Use)>) {
    forall a, b :: 0 <= a < b < |q| ==> q[a].0 != q[b].0 || q[a].1.file != q[b].1.file || q[a].1.input != q[b].1.input
  }

  lemma {:induction false} OnceIn(q: seq<(nat, Use)>, i: nat)
    requires OnceEach(q)
    ensures UsesOnce(UsesOf(q, i))
  {
    if q != [] {
      var n := |q| - 1;
      OnceIn(q[..n], i);
      if q[n].0 == i {
        forall u | u in UsesOf(q[..n], i) ensures u.file != q[n].1.file || u.input != q[n].1.input {
          UsesOfIn(q[..n], i, u);
          var a :| 0 <= a < n && q[..n][a] == (i, u);
          assert q[a] == (i, u);
        }
      }
    }
  }

  lemma DocLoads(heads: seq<Head>, q: seq<(nat, Use)>)
    requires OnceEach(q)
    ensures Over(Doc(heads, q), heads) && Loadable(Doc(heads, q))
  {
    forall i | 0 <= i < |heads| ensures UsesOnce(UsesOf(q, i)) { OnceIn(q, i); }
  }

  lemma DocUses(heads: seq<Head>, q: seq<(nat, Use)>, i: nat, f: string)
    requires i < |heads|
    ensures Writes(Doc(heads, q).jobs[i], f) <==> exists k :: 0 <= k < |q| && q[k].0 == i && !q[k].1.input && q[k].1.file == f
    ensures Reads(Doc(heads, q).jobs[i], f) <==> exists k :: 0 <= k < |q| && q[k].0 == i && q[k].1.input && q[k].1.file == f
  {
    forall u ensures u in UsesOf(q, i) <==> (i, u) in q { UsesOfIn(q, i, u); }
    assert forall k :: 0 <= k < |q| ==> q[k] in q && q[k] == (q[k].0, q[k].1);
  }

  /** No job of the document both reads and writes. */
  lemma OneWayAcyclic(d: Dax)
    requires d.children == []
    requires forall i, f, g :: 0 <= i < |d.jobs| && Writes(d.jobs[i], f) ==> !Reads(d.jobs[i], g)
    ensures Acyclic(DeclaredEdges(d))
  {
    var E := DeclaredEdges(d);
    forall i: nat, y: Node, z: Node ensures !((JobNode(i), y) in E && (z, JobNode(i)) in E) { }
    forall x ensures !Reaches(E, x, x) {
      if Reaches(E, x, x) {
        var n: nat :| n >= 1 && Steps(E, x, x, n);
        var y: Node := ReachesFirst(E, x, x);
        var z: Node := StepsLast(E, x, x, n);
        if x.FileNode? { var w: Node := ReachesFirst(E, y, x); }
      }
    }
  }

  // ----- A layout for every document -----

  lemma {:induction false} Enumerated(S: set<Transfer>, base: Id) returns (m: map<Id, Transfer>)
    ensures m.Values == S && (forall t :: t in m ==> t >= base)
    ensures forall t, u :: t in m && u in m && m[t] == m[u] ==> t == u
  {
    if S == {} {
      m := map[];
    } else {
      var tr :| tr in S;
      var rest := Enumerated(S - {tr}, base + 1);
      assert forall t :: t in rest ==> rest[t] in rest.Values;
      m := rest[base := tr];
      forall v ensures v in m.Values <==> v in S {
        if v == tr { assert m[base] == tr; }
        if v in S - {tr} {
          var t :| t in rest && rest[t] == v;
          assert m[t] == v;
        }
      }
    }
  }

  lemma LayoutExists(d: Dax) returns (l: Layout)
    ensures Separate(d, l) && TransfersMatch(d, l)
  {
    var bare := Layout(seq(|d.jobs|, i => i + 2), 0, 1, map[]);
    var ends := {bare.root, bare.end} + Executions(bare);
    var S := set x, f, y | x in ends && f in FileNames(d) && y in ends && Wanted(d, bare, Transfer(x, f, y)) :: Transfer(x, f, y);
    var m := Enumerated(S, |d.jobs| + 2);
    l := bare.(origin := m);
    forall tr: Transfer ensures Wanted(d, l, tr) <==> tr in S {
      assert Wanted(d, l, tr) <==> Wanted(d, bare, tr);
      if Wanted(d, bare, tr) {
        assert tr == Transfer(tr.from, tr.file, tr.to) && tr.from in ends && tr.to in ends;
      }
    }
    forall t | t in m ensures m[t] in S { assert m[t] in m.Values; }
  }

  // ----- Two transfers with the same name -----

  /** One end of a transfer. */
  datatype Place = AtRoot | AtJob(i: nat) | AtEnd

  datatype Route = Route(from: Place, file: string, to: Place)

  ghost predicate Fits(r: Route, heads: seq<Head>) {
    && !r.from.AtEnd? && !r.to.AtRoot? && (r.from.AtJob? || r.to.AtJob?)
    && (r.from.AtJob? ==> r.from.i < |heads|) && (r.to.AtJob? ==> r.to.i < |heads|)
  }

  function RouteUses(r: Route): seq<(nat, Use)> {
    (if r.from.AtJob? then [(r.from.i, Use(r.file, 0.0, false))] else []) +
    (if r.to.AtJob? then [(r.to.i, Use(r.file, 0.0, true))] else [])
  }

  function PlaceName(p: Place, heads: seq<Head>): string {
    match p
    case AtRoot => "root"
    case AtEnd => "end"
    case AtJob(i) => if i < |heads| then HeadName(heads[i]) else ""
  }

  function PlaceId(p: Place, l: Layout): Id {
    match p
    case AtRoot => l.root
    case AtEnd => l.end
    case AtJob(i) => if i < |l.job| then l.job[i] else 0
  }

  function RouteName(r: Route, heads: seq<Head>): string {
    TransferName(PlaceName(r.from, heads), r.file, PlaceName(r.to, heads))
  }

  function RouteTransfer(r: Route, l: Layout): Transfer { Transfer(PlaceId(r.from, l), r.file, PlaceId(r.to, l)) }

  /** The file of the route is written and read at its ends only. */
  ghost predicate Serves(d: Dax, r: Route) {
    forall i :: 0 <= i < |d.jobs| ==> (Writes(d.jobs[i], r.file) <==> r.from == AtJob(i)) && (Reads(d.jobs[i], r.file) <==> r.to == AtJob(i))
  }

  /** A document with one file for each of two routes. */
  function RoutesDoc(r: Route, s: Route, heads: seq<Head>): Dax { Doc(heads, RouteUses(r) + RouteUses(s)) }

  lemma RouteUsed(r: Route, s: Route, heads: seq<Head>, i: nat, f: string)
    requires i < |heads|
    ensures var job := RoutesDoc(r, s, heads).jobs[i];
            && (Writes(job, f) <==> (f == r.file && r.from == AtJob(i)) || (f == s.file && s.from == AtJob(i)))
            && (Reads(job, f) <==> (f == r.file && r.to == AtJob(i)) || (f == s.file && s.to == AtJob(i)))
  {
    hide Writes, Reads;
    DocUses(heads, RouteUses(r) + RouteUses(s), i, f);
    WritesListed(r, s, i, f);
    ReadsListed(r, s, i, f);
    hide RouteUses;
  }

  lemma RoutesServed(r: Route, s: Route, heads: seq<Head>)
    requires r.file != s.file
    ensures Serves(RoutesDoc(r, s, heads), r) && Serves(RoutesDoc(r, s, heads), s)
    ensures r.from != r.to && r.from != s.to && s.from != r.to && s.from != s.to ==> Acyclic(DeclaredEdges(RoutesDoc(r, s, heads)))
  {
    var d := RoutesDoc(r, s, heads);
    assert |d.jobs| == |heads| && d.children == [];
    forall i: nat, f: string | i < |heads|
      ensures Writes(d.jobs[i], f) <==> (f == r.file && r.from == AtJob(i)) || (f == s.file && s.from == AtJob(i))
      ensures Reads(d.jobs[i], f) <==> (f == r.file && r.to == AtJob(i)) || (f == s.file && s.to == AtJob(i))
    {
      RouteUsed(r, s, heads, i, f);
    }
    hide Writes, Reads, RoutesDoc, Acyclic, DeclaredEdges;
    if r.from != r.to && r.from != s.to && s.from != r.to && s.from != s.to { OneWayAcyclic(d); }
  }

  lemma WritesListed(r: Route, s: Route, i: nat, f: string)
    ensures var q := RouteUses(r) + RouteUses(s);
            (exists k :: 0 <= k < |q| && q[k].0 == i && !q[k].1.input && q[k].1.file == f) <==>
            (f == r.file && r.from == AtJob(i)) || (f == s.file && s.from == AtJob(i))
  {
    var q := RouteUses(r) + RouteUses(s);
    if r.from.AtJob? { assert q[0] == (r.from.i, Use(r.file, 0.0, false)); }
    if s.from.AtJob? { assert q[|RouteUses(r)|] == (s.from.i, Use(s.file, 0.0, false)); }
  }

  lemma ReadsListed(r: Route, s: Route, i: nat, f: string)
    ensures var q := RouteUses(r) + RouteUses(s);
            (exists k :: 0 <= k < |q| && q[k].0 == i && q[k].1.input && q[k].1.file == f) <==>
            (f == r.file && r.to == AtJob(i)) || (f == s.file && s.to == AtJob(i))
  {
    var q := RouteUses(r) + RouteUses(s);
    if r.to.AtJob? { assert q[|RouteUses(r)| - 1] == (r.to.i, Use(r.file, 0.0, true)); }
    if s.to.AtJob? { assert q[|q| - 1] == (s.to.i, Use(s.file, 0.0, true)); }
  }

  lemma RouteWanted(r: Route, heads: seq<Head>, d: Dax, l: Layout)
    requires Fits(r, heads) && Over(d, heads) && Separate(d, l) && Serves(d, r)
    ensures Wanted(d, l, RouteTransfer(r, l))
  {
    var i := if r.from.AtJob? then r.from.i else r.to.i;
    assert Writes(d.jobs[i], r.file) || Reads(d.jobs[i], r.file);
    var u :| u in d.jobs[i].uses && u.file == r.file;
    UsesCollected(d.jobs, i, u);
  }

  lemma RouteNamed(r: Route, heads: seq<Head>, d: Dax, l: Layout)
    requires Fits(r, heads) && Over(d, heads) && Separate(d, l)
    ensures NameOf(d, l, RouteTransfer(r, l)) == RouteName(r, heads)
  {
    PlaceNamed(r.from, heads, d, l);
    PlaceNamed(r.to, heads, d, l);
  }

  lemma PlaceNamed(p: Place, heads: seq<Head>, d: Dax, l: Layout)
    requires Over(d, heads) && Separate(d, l) && (p.AtJob? ==> p.i < |heads|)
    ensures ExecName(d, l, PlaceId(p, l)) == PlaceName(p, heads)
  {
    if p.AtJob? { assert JobOf(l, l.job[p.i]) == p.i; }
  }

  lemma SameNameClash(d: Dax, l: Layout, a: Transfer, b: Transfer)
    requires Separate(d, l) && TransfersMatch(d, l) && Wanted(d, l, a) && Wanted(d, l, b) && a != b
    requires NameOf(d, l, a) == NameOf(d, l, b)
    ensures !DistinctNames(d, l)
  {
    var t :| t in l.origin && l.origin[t] == a;
    var u :| u in l.origin && l.origin[u] == b;
  }

  /** Two routes with the same name make a document with a clash; if no job is at both ends, an acyclic one. */
  lemma RoutesClash(r: Route, s: Route, heads: seq<Head>) returns (d: Dax)
    requires Fits(r, heads) && Fits(s, heads) && r.file != s.file && RouteName(r, heads) == RouteName(s, heads)
    ensures d == RoutesDoc(r, s, heads) && Over(d, heads) && Loadable(d) && Clashes(d)
    ensures r.from != r.to && r.from != s.to && s.from != r.to && s.from != s.to ==> Acyclic(DeclaredEdges(d))
  {
    hide RouteUses, Doc, Loadable, TransfersMatch, RouteName, Acyclic, DeclaredEdges, DistinctNames, Serves;
    d := RoutesDoc(r, s, heads);
    RoutesLoad(r, s, heads);
    RoutesServed(r, s, heads);
    forall l | Separate(d, l) && TransfersMatch(d, l) ensures !DistinctNames(d, l) { RoutesClashIn(r, s, heads, d, l); }
  }

  lemma RoutesClashIn(r: Route, s: Route, heads: seq<Head>, d: Dax, l: Layout)
    requires Fits(r, heads) && Fits(s, heads) && r.file != s.file && RouteName(r, heads) == RouteName(s, heads)
    requires Over(d, heads) && Serves(d, r) && Serves(d, s) && Separate(d, l) && TransfersMatch(d, l)
    ensures !DistinctNames(d, l)
  {
    hide Separate, TransfersMatch, Wanted, NameOf, RouteName, DistinctNames, Serves;
    RouteWanted(r, heads, d, l);
    RouteWanted(s, heads, d, l);
    RouteNamed(r, heads, d, l);
    RouteNamed(s, heads, d, l);
    SameNameClash(d, l, RouteTransfer(r, l), RouteTransfer(s, l));
  }

  lemma RoutesLoad(r: Route, s: Route, heads: seq<Head>)
    requires r.file != s.file
    ensures Over(RoutesDoc(r, s, heads), heads) && Loadable(RoutesDoc(r, s, heads))
  {
    OnceListed(r, s);
    hide RouteUses, OnceEach, Loadable, Doc;
    DocLoads(heads, RouteUses(r) + RouteUses(s));
  }

  lemma OnceListed(r: Route, s: Route)
    requires r.file != s.file
    ensures OnceEach(RouteUses(r) + RouteUses(s))
  {
    var q, n := RouteUses(r) + RouteUses(s), |RouteUses(r)|;
    forall a | 0 <= a < |q| ensures q[a].1.file == if a < n then r.file else s.file { }
  }

  lemma EqualNamesClash(heads: seq<Head>, i: nat, j: nat) returns (d: Dax)
    requires i < j < |heads| && HeadName(heads[i]) == HeadName(heads[j])
    ensures d == Doc(heads, [(i, Use("f", 0.0, true)), (j, Use("f", 0.0, true))])
    ensures Over(d, heads) && Loadable(d) && Clashes(d) && Acyclic(DeclaredEdges(d))
  {
    var q := [(i, Use("f", 0.0, true)), (j, Use("f", 0.0, true))];
    d := Doc(heads, q);
    DocLoads(heads, q);
    forall k: nat, f: string | k < |heads|
      ensures !Writes(d.jobs[k], f) && (Reads(d.jobs[k], f) <==> f == "f" && (k == i || k == j))
    {
      DocUses(heads, q, k, f);
      assert q[0].0 == i && q[1].0 == j;
    }
    assert |d.jobs| == |heads| && d.children == [];
    hide Doc, Reads, Writes, Loadable;
    OneWayAcyclic(d);
    hide Acyclic, DeclaredEdges, TransfersMatch, DistinctNames;
    forall l | Separate(d, l) && TransfersMatch(d, l) ensures !DistinctNames(d, l) { BothRead(d, l, heads, i, j); }
  }

  lemma BothRead(d: Dax, l: Layout, heads: seq<Head>, i: nat, j: nat)
    requires IsLoad(d, l, heads) && i < j < |heads| && HeadName(heads[i]) == HeadName(heads[j])
    requires forall k: nat, f: string :: k < |d.jobs| ==> !Writes(d.jobs[k], f) && (Reads(d.jobs[k], f) <==> f == "f" && (k == i || k == j))
    ensures !DistinctNames(d, l)
  {
    hide Loadable, TransfersMatch;
    var a, b := Transfer(l.root, "f", l.job[i]), Transfer(l.root, "f", l.job[j]);
    assert Reads(d.jobs[i], "f");
    var u :| u in d.jobs[i].uses && u.file == "f";
    UsesCollected(d.jobs, i, u);
    hide Reads, Writes;
    assert Wanted(d, l, a) && Wanted(d, l, b);
    PlaceNamed(AtJob(i), heads, d, l);
    PlaceNamed(AtJob(j), heads, d, l);
    SameNameClash(d, l, a, b);
  }

  lemma NoAtInEnds()
    ensures '@' !in "root" && '@' !in "end"
  {
  }

  lemma LongerName(q: string, p: string)
    requires StartsWithName(q, p) || EndsWithName(q, p)
    ensures |p| < |q| && forall c :: c in p ==> c in q
  {
    if StartsWithName(q, p) {
      var w: string :| q == p + "_" + w;
    } else {
      var w: string :| q == w + "_" + p;
    }
  }

  /** A job other than `j`, if there is one. */
  function Another(heads: seq<Head>, j: nat): nat { if |heads| < 2 then j else if j == 0 then 1 else 0 }

  lemma ContinuedName(p: string, w: string, c: string)
    ensures TransferName(p + "_" + w, "f", c) == TransferName(p, w + "_f", c) && w + "_f" != "f"
  {
    assert "_f" == "_" + "f";
    assert p + "_" + w + "_" + "f" == p + "_" + (w + "_f");
  }

  lemma EndedName(p: string, w: string, c: string)
    ensures TransferName(p, "f", w + "_" + c) == TransferName(p, "f_" + w, c) && "f_" + w != "f"
  {
    assert "f_" == "f" + "_";
    assert p + "_" + "f" + "_" + (w + "_" + c) == p + "_" + ("f_" + w) + "_" + c;
  }

  lemma ParentContinued(heads: seq<Head>, p: string, q: string) returns (d: Dax)
    requires p in ParentNames(heads) && q in ParentNames(heads) && StartsWithName(q, p)
    ensures Over(d, heads) && Loadable(d) && Clashes(d) && (|heads| >= 2 ==> Acyclic(DeclaredEdges(d)))
  {
    hide Over, Loadable, Clashes, Acyclic, DeclaredEdges;
    LongerName(q, p);
    NoAtInEnds();
    if i :| 0 <= i < |heads| && p == HeadName(heads[i]) { HasAt(heads[i]); }
    assert q != "root";
    var j :| 0 <= j < |heads| && q == HeadName(heads[j]);
    var w: string :| q == p + "_" + w;
    var g := w + "_f";
    hide TransferName;
    if p == "root" {
      var k := Another(heads, j);
      var c := HeadName(heads[k]);
      ContinuedName(p, w, c);
      d := RoutesClash(Route(AtJob(j), "f", AtJob(k)), Route(AtRoot, g, AtJob(k)), heads);
    } else {
      var i :| 0 <= i < |heads| && p == HeadName(heads[i]);
      ContinuedName(p, w, "end");
      d := RoutesClash(Route(AtJob(j), "f", AtEnd), Route(AtJob(i), g, AtEnd), heads);
    }
  }

  lemma ChildEnded(heads: seq<Head>, c: string, e: string) returns (d: Dax)
    requires c in ChildNames(heads) && e in ChildNames(heads) && EndsWithName(e, c)
    ensures Over(d, heads) && Loadable(d) && Clashes(d) && (|heads| >= 2 ==> Acyclic(DeclaredEdges(d)))
  {
    hide Over, Loadable, Clashes, Acyclic, DeclaredEdges;
    LongerName(e, c);
    NoAtInEnds();
    if i :| 0 <= i < |heads| && c == HeadName(heads[i]) { HasAt(heads[i]); }
    assert e != "end";
    var j :| 0 <= j < |heads| && e == HeadName(heads[j]);
    var w: string :| e == w + "_" + c;
    var g := "f_" + w;
    hide TransferName;
    if c == "end" {
      var k := Another(heads, j);
      var p := HeadName(heads[k]);
      EndedName(p, w, c);
      d := RoutesClash(Route(AtJob(k), "f", AtJob(j)), Route(AtJob(k), g, AtEnd), heads);
    } else {
      var i :| 0 <= i < |heads| && c == HeadName(heads[i]);
      EndedName("root", w, c);
      d := RoutesClash(Route(AtRoot, "f", AtJob(j)), Route(AtRoot, g, AtJob(i)), heads);
    }
  }

  lemma NotTelling(heads: seq<Head>) returns (d: Dax)
    requires !Telling(heads)
    ensures Over(d, heads) && Loadable(d) && Clashes(d) && (|heads| >= 2 ==> Acyclic(DeclaredEdges(d)))
  {
    hide StartsWithName, EndsWithName;
    if i, j :| 0 <= i < j < |heads| && HeadName(heads[i]) == HeadName(heads[j]) {
      d := EqualNamesClash(heads, i, j);
    } else if p, q :| p in ParentNames(heads) && q in ParentNames(heads) && StartsWithName(q, p) {
      d := ParentContinued(heads, p, q);
    } else {
      var c, e :| c in ChildNames(heads) && e in ChildNames(heads) && EndsWithName(e, c);
      d := ChildEnded(heads, c, e);
    }
  }

  // ----- Main results -----

  /** All loads of the jobs have pairwise distinct transfer names exactly when the jobs' names are telling; with two
      jobs or more, the loads without a cycle already need it. */
  lemma NamesDistinctIff(heads: seq<Head>)
    ensures AlwaysDistinct(heads) <==> Telling(heads)
    ensures |heads| != 1 ==> (AcyclicDistinct(heads) <==> Telling(heads))
  {
    if Telling(heads) {
      forall d, l, t, u | IsLoad(d, l, heads) && t in l.origin && u in l.origin && t != u
        ensures NameOf(d, l, l.origin[t]) != NameOf(d, l, l.origin[u])
      {
        if NameOf(d, l, l.origin[t]) == NameOf(d, l, l.origin[u]) { TellingDistinct(d, l, heads, t, u); }
      }
    } else if heads == [] {
      EmptyTells();
    } else {
      var d := NotTelling(heads);
      var l := LayoutExists(d);
      assert IsLoad(d, l, heads) && !DistinctNames(d, l);
    }
  }

  lemma EmptyTells()
    ensures Telling([])
  {
    forall q: string, p: string | StartsWithName(q, p) || EndsWithName(q, p) ensures |p| < |q| { LongerName(q, p); }
  }

  /** So in what the loader leaves, different transfers have different names. */
  lemma LoadedNamesDistinct(d: Dax, l: Layout, s: Store, heads: seq<Head>, t: Id, u: Id)
    requires Over(d, heads) && Loadable(d) && Complete(d, l, s) && Renaming(d, l, s, s.Keys) && Telling(heads)
    requires t in l.origin && u in l.origin && t != u
    ensures t in s && u in s && s[t].name != s[u].name
  {
    hide Loadable, Telling;
    if NameOf(d, l, l.origin[t]) == NameOf(d, l, l.origin[u]) { TellingDistinct(d, l, heads, t, u); }
  }

  // ----- One job without a cycle -----

  /** No file of the document is both read and written. */
  lemma PassedOnceAcyclic(d: Dax)
    requires d.children == []
    requires forall i, j, f :: 0 <= i < |d.jobs| && 0 <= j < |d.jobs| && Writes(d.jobs[i], f) ==> !Reads(d.jobs[j], f)
    ensures Acyclic(DeclaredEdges(d))
  {
    var E := DeclaredEdges(d);
    forall f: string, y: Node, z: Node ensures !((FileNode(f), y) in E && (z, FileNode(f)) in E) { }
    forall x ensures !Reaches(E, x, x) {
      if Reaches(E, x, x) {
        var n: nat :| n >= 1 && Steps(E, x, x, n);
        var y: Node := ReachesFirst(E, x, x);
        var z: Node := StepsLast(E, x, x, n);
        if x.JobNode? { var w: Node := ReachesFirst(E, y, x); }
      }
    }
  }

  lemma BothNamesTaken(h: Head) returns (d: Dax)
    requires StartsWithName(HeadName(h), "root") && EndsWithName(HeadName(h), "end")
    ensures Over(d, [h]) && Loadable(d) && Clashes(d) && Acyclic(DeclaredEdges(d))
  {
    var n, heads := HeadName(h), [h];
    var x: string :| n == "root" + "_" + x;
    var y: string :| n == y + "_" + "end";
    assert |x| + 5 == |n| == |y| + 4;
    assert "root" + "_" + x + "_" + n == n + "_" + (y + "_" + "end") == n + "_" + y + "_" + "end";
    var r, s := Route(AtRoot, x, AtJob(0)), Route(AtJob(0), y, AtEnd);
    d := RoutesClash(r, s, heads);
    ServedOnce(r, s, heads);
  }

  lemma ServedOnce(r: Route, s: Route, heads: seq<Head>)
    requires r.file != s.file && !r.from.AtJob? && !s.to.AtJob?
    ensures Acyclic(DeclaredEdges(RoutesDoc(r, s, heads)))
  {
    var d := RoutesDoc(r, s, heads);
    assert |d.jobs| == |heads| && d.children == [];
    forall i: nat, f: string | i < |heads|
      ensures Writes(d.jobs[i], f) ==> f == s.file
      ensures Reads(d.jobs[i], f) ==> f == r.file
    {
      RouteUsed(r, s, heads, i, f);
    }
    hide Writes, Reads, RoutesDoc, Acyclic, DeclaredEdges;
    PassedOnceAcyclic(d);
  }

  /** In an acyclic load of one job, a transfer comes from the root or goes to the end, not both. */
  lemma OneJobEnds(d: Dax, l: Layout, h: Head, t: Id)
    requires IsLoad(d, l, [h]) && Acyclic(DeclaredEdges(d)) && t in l.origin
    ensures var tr := l.origin[t]; (tr.from == l.root && tr.to == l.job[0]) || (tr.from == l.job[0] && tr.to == l.end)
  {
    hide Acyclic, DeclaredEdges, Loadable;
    var tr := l.origin[t];
    var f := tr.file;
    assert Wanted(d, l, tr);
    var u :| u in AllUses(d.jobs) && u.file == f;
    UsesOrigin(d.jobs, u);
    assert Writes(d.jobs[0], f) || Reads(d.jobs[0], f);
    if Writes(d.jobs[0], f) && Reads(d.jobs[0], f) { OwnFileCycle(d, 0, f); }
  }

  lemma OwnFileCycle(d: Dax, i: nat, f: string)
    requires i < |d.jobs| && Writes(d.jobs[i], f) && Reads(d.jobs[i], f)
    ensures !Acyclic(DeclaredEdges(d))
  {
    var E := DeclaredEdges(d);
    EdgeReaches(E, JobNode(i), FileNode(f));
    EdgeReaches(E, FileNode(f), JobNode(i));
    ReachesTransitive(E, JobNode(i), FileNode(f), JobNode(i));
  }

  lemma CrossNames(n: string, f: string, g: string)
    requires '@' in n && TransferName("root", f, n) == TransferName(n, g, "end")
    ensures StartsWithName(n, "root") && EndsWithName(n, "end")
  {
    Grouped("root", f, n);
    Grouped(n, g, "end");
    LongName(n, g + "_" + "end", f + "_" + n);
    ParentTold("root", f + "_" + n, n, g + "_" + "end");
    ChildTold(n + "_" + g, "end", "root" + "_" + f, n);
  }

  lemma LongName(n: string, r: string, s: string)
    requires '@' in n && n + "_" + r == "root" + "_" + s
    ensures |n| > 4
  {
    var t := n + "_" + r;
    var k :| 0 <= k < |n| && n[k] == '@';
    assert t[k] == '@' && t[0] == 'r' && t[1] == 'o' && t[2] == 'o' && t[3] == 't';
  }

  /** The loads of a single job that are not refused for a cycle. */
  lemma OneJobDistinctIff(h: Head)
    ensures AcyclicDistinct([h]) <==> !(StartsWithName(HeadName(h), "root") && EndsWithName(HeadName(h), "end"))
  {
    if StartsWithName(HeadName(h), "root") && EndsWithName(HeadName(h), "end") {
      var d := BothNamesTaken(h);
      var l := LayoutExists(d);
      assert IsLoad(d, l, [h]) && !DistinctNames(d, l);
    } else {
      forall d, l, t, u | IsLoad(d, l, [h]) && Acyclic(DeclaredEdges(d)) && t in l.origin && u in l.origin && t != u
        ensures NameOf(d, l, l.origin[t]) != NameOf(d, l, l.origin[u])
      {
        if NameOf(d, l, l.origin[t]) == NameOf(d, l, l.origin[u]) { OneJobApart(d, l, h, t, u); }
      }
    }
  }

  lemma OneJobApart(d: Dax, l: Layout, h: Head, t: Id, u: Id)
    requires IsLoad(d, l, [h]) && Acyclic(DeclaredEdges(d)) && t in l.origin && u in l.origin
    requires !(StartsWithName(HeadName(h), "root") && EndsWithName(HeadName(h), "end"))
    requires NameOf(d, l, l.origin[t]) == NameOf(d, l, l.origin[u])
    ensures t == u
  {
    var n := HeadName(h);
    HasAt(h);
    OneJobEnds(d, l, h, t);
    OneJobEnds(d, l, h, u);
    hide Acyclic, DeclaredEdges, Loadable, StartsWithName, EndsWithName;
    PlaceNamed(AtJob(0), [h], d, l);
    var a, b := l.origin[t], l.origin[u];
    if a.from == b.from {
      SameFile(ExecName(d, l, a.from), a.file, b.file, ExecName(d, l, a.to));
    } else if a.from == l.root {
      CrossNames(n, a.file, b.file);
    } else {
      CrossNames(n, b.file, a.file);
    }
  }

  lemma SameFile(p: string, f: string, g: string, c: string)
    requires TransferName(p, f, c) == TransferName(p, g, c)
    ensures f == g
  {
    var s := TransferName(p, f, c);
    assert s[|p| + 1..|s| - |c| - 1] == f && TransferName(p, g, c)[|p| + 1..|s| - |c| - 1] == g;
  }

  // ----- Examples -----

  /** Ids and names without underscore, and jobs of different names, are enough. */
  lemma PlainNamesTell(heads: seq<Head>)
    requires forall i :: 0 <= i < |heads| ==> '_' !in heads[i].id && '_' !in heads[i].name
    requires forall i, j :: 0 <= i < j < |heads| ==> HeadName(heads[i]) != HeadName(heads[j])
    ensures Telling(heads) && AlwaysDistinct(heads)
  {
    assert '_' !in "root" && '_' !in "end";
    forall i | 0 <= i < |heads| ensures '_' !in HeadName(heads[i]) { }
    hide StartsWithName, EndsWithName, HeadName, AlwaysDistinct;
    forall p, q | p in ParentNames(heads) && q in ParentNames(heads) ensures !StartsWithName(q, p) { NoUnderscore(q, p); }
    forall p, q | p in ChildNames(heads) && q in ChildNames(heads) ensures !EndsWithName(q, p) { NoUnderscore(q, p); }
    NamesDistinctIff(heads);
  }

  lemma NoUnderscore(q: string, p: string)
    requires '_' !in q
    ensures !StartsWithName(q, p) && !EndsWithName(q, p)
  {
    forall a: string, b: string ensures '_' in a + "_" + b { assert (a + "_" + b)[|a|] == '_'; }
  }

  /** Two jobs with different ids and names, and a clash. */
  const Clash: Dax := Dax([Job("a", "x", 0.0, [Use("b@y_f", 0.0, false)]), Job("a@x_b", "y", 0.0, [Use("f", 0.0, false)])], [])

  /** Two jobs with different ids and the same name. */
  const Twins: Dax := Dax([Job("a", "b@c", 0.0, [Use("f", 0.0, true)]), Job("a@b", "c", 0.0, [Use("f", 0.0, true)])], [])

  /** Both documents are loaded without a cycle, and two of their transfers have the same name. */
  lemma NamesClash()
    ensures Loadable(Clash) && Acyclic(DeclaredEdges(Clash)) && Clashes(Clash)
    ensures Loadable(Twins) && Acyclic(DeclaredEdges(Twins)) && Clashes(Twins)
  {
    ClashDoc();
    TwinsDoc();
  }

  lemma ClashDoc()
    ensures Loadable(Clash) && Acyclic(DeclaredEdges(Clash)) && Clashes(Clash)
  {
    hide Loadable, Acyclic, DeclaredEdges, Clashes;
    var heads, r, s := [Head("a", "x"), Head("a@x_b", "y")], Route(AtJob(1), "f", AtEnd), Route(AtJob(0), "b@y_f", AtEnd);
    ClashNames();
    var d := RoutesClash(r, s, heads);
    var u, v := (1, Use("f", 0.0, false)), (0, Use("b@y_f", 0.0, false));
    assert RouteUses(r) + RouteUses(s) == [u, v];
    UsesOfTwo(u, v, 0);
    UsesOfTwo(u, v, 1);
    assert d.jobs[0] == Clash.jobs[0] && d.jobs[1] == Clash.jobs[1] && |d.jobs| == 2;
    assert d == Clash;
  }

  lemma ClashNames()
    ensures var heads, r, s := [Head("a", "x"), Head("a@x_b", "y")], Route(AtJob(1), "f", AtEnd), Route(AtJob(0), "b@y_f", AtEnd);
            RouteName(r, heads) == RouteName(s, heads)
  {
    var heads, r, s := [Head("a", "x"), Head("a@x_b", "y")], Route(AtJob(1), "f", AtEnd), Route(AtJob(0), "b@y_f", AtEnd);
    assert RouteName(r, heads) == "a@x_b@y_f_end" == RouteName(s, heads);
  }

  lemma UsesOfTwo(u: (nat, Use), v: (nat, Use), i: nat)
    ensures UsesOf([u, v], i) == (if u.0 == i then [u.1] else []) + (if v.0 == i then [v.1] else [])
  {
    assert [u, v][..1] == [u] && [u][..0] == [];
    assert UsesOf([u], i) == if u.0 == i then [u.1] else [];
  }

  lemma TwinsDoc()
    ensures Loadable(Twins) && Acyclic(DeclaredEdges(Twins)) && Clashes(Twins)
  {
    hide Loadable, Acyclic, DeclaredEdges, Clashes;
    var heads := [Head("a", "b@c"), Head("a@b", "c")];
    assert HeadName(heads[0]) == "a@b@c" == HeadName(heads[1]);
    var d := EqualNamesClash(heads, 0, 1);
    UsesOfTwo((0, Use("f", 0.0, true)), (1, Use("f", 0.0, true)), 0);
    UsesOfTwo((0, Use("f", 0.0, true)), (1, Use("f", 0.0, true)), 1);
    assert d.jobs[0] == Twins.jobs[0] && d.jobs[1] == Twins.jobs[1] && |d.jobs| == 2;
    assert d == Twins;
  }
}
