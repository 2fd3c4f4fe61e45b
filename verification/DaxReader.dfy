/** How the tag handlers turn a DAX document, read so far, into activities. */
module DaxReader {
  import opened Common
  import opened Graphs
  import opened Activities
  import opened DaxGraph
  import opened TransferNames

  // ----- Growing the document, one tag at a time -----

  function AddJob(d: Dax, id: string, name: string, runtime: real): Dax {
    d.(jobs := d.jobs + [Job(id, name, runtime, [])])
  }

  function AddUse(d: Dax, u: Use): Dax
    requires d.jobs != []
  {
    var n := |d.jobs| - 1;
    d.(jobs := d.jobs[..n] + [d.jobs[n].(uses := d.jobs[n].uses + [u])])
  }

  function AddChild(d: Dax, ref: string): Dax { d.(children := d.children + [Child(ref, [])]) }

  function AddParent(d: Dax, ref: string): Dax
    requires d.children != []
  {
    var n := |d.children| - 1;
    d.(children := d.children[..n] + [d.children[n].(parents := d.children[n].parents + [ref])])
  }

  /** A call of a tag handler. */
  datatype Handled =
    | OnAdag(version: real)
    | OnJob(id: string, name: string, runtime: real)
    | OnUse(u: Use)
    | OnJobEnd
    | OnChild(ref: string)
    | OnParent(ref: string)
    | OnChildEnd

  function UseCalls(uses: seq<Use>): seq<Handled> { seq(|uses|, i requires 0 <= i < |uses| => OnUse(uses[i])) }

  function JobCalls(job: Job): seq<Handled> { [OnJob(job.id, job.name, job.runtime)] + UseCalls(job.uses) + [OnJobEnd] }

  function JobsCalls(jobs: seq<Job>): seq<Handled> {
    if jobs == [] then [] else JobsCalls(jobs[..|jobs| - 1]) + JobCalls(jobs[|jobs| - 1])
  }

  function ParentCalls(parents: seq<string>): seq<Handled> {
    seq(|parents|, i requires 0 <= i < |parents| => OnParent(parents[i]))
  }

  function ChildCalls(c: Child): seq<Handled> { [OnChild(c.ref)] + ParentCalls(c.parents) + [OnChildEnd] }

  function ChildrenCalls(children: seq<Child>): seq<Handled> {
    if children == [] then [] else ChildrenCalls(children[..|children| - 1]) + ChildCalls(children[|children| - 1])
  }

  /** The handler calls of all jobs and children, in order. */
  function DocCalls(d: Dax): seq<Handled> { JobsCalls(d.jobs) + ChildrenCalls(d.children) }

  /** The declared edge that a use of the last job stands for. */
  function UseEdge(d: Dax, u: Use): (Node, Node)
    requires d.jobs != []
  {
    var job := JobNode(|d.jobs| - 1);
    if u.input then (FileNode(u.file), job) else (job, FileNode(u.file))
  }

  lemma AddJobDeclares(d: Dax, id: string, name: string, runtime: real, n: Node, m: Node)
    requires d.children == []
    ensures Declared(AddJob(d, id, name, runtime), n, m) <==> Declared(d, n, m)
    ensures AllUses(AddJob(d, id, name, runtime).jobs) == AllUses(d.jobs)
  {
    assert AddJob(d, id, name, runtime).jobs[..|d.jobs|] == d.jobs;
  }

  lemma AddUseDeclares(d: Dax, u: Use, n: Node, m: Node)
    requires d.jobs != [] && d.children == []
    ensures Declared(AddUse(d, u), n, m) <==> Declared(d, n, m) || (n, m) == UseEdge(d, u)
  {
    var k := |d.jobs| - 1;
    var job, job' := d.jobs[k], AddUse(d, u).jobs[k];
    assert forall v :: v in job'.uses <==> v in job.uses || v == u;
    assert forall f :: Writes(job', f) <==> Writes(job, f) || (!u.input && u.file == f);
    assert forall f :: Reads(job', f) <==> Reads(job, f) || (u.input && u.file == f);
  }

  lemma AddUseCollected(d: Dax, u: Use)
    requires d.jobs != []
    ensures AllUses(AddUse(d, u).jobs) == AllUses(d.jobs) + [u]
    ensures FileNames(AddUse(d, u)) == FileNames(d) + {u.file}
  {
    var n := |d.jobs| - 1;
    assert AddUse(d, u).jobs[..n] == d.jobs[..n];
  }

  lemma {:induction false} AddUseSizes(uses: seq<Use>, u: Use, f: string)
    ensures FirstSize(uses + [u], f) ==
            if (exists v :: v in uses && v.file == f) then FirstSize(uses, f) else if u.file == f then u.size else 0.0
  {
    if uses != [] && uses[0].file != f {
      assert (uses + [u])[1..] == uses[1..] + [u];
      AddUseSizes(uses[1..], u, f);
    }
  }

  lemma UseAddedSize(d: Dax, u: Use, f: string)
    requires d.jobs != [] && f in FileNames(d) + {u.file}
    ensures FirstSize(AllUses(AddUse(d, u).jobs), f) == if f in FileNames(d) then FirstSize(AllUses(d.jobs), f) else u.size
  {
    AddUseCollected(d, u);
    AddUseSizes(AllUses(d.jobs), u, f);
  }

  lemma AddChildDeclares(d: Dax, ref: string, n: Node, m: Node)
    ensures Declared(AddChild(d, ref), n, m) <==> Declared(d, n, m)
  {
    forall c | c in d.children ensures c in AddChild(d, ref).children { }
  }

  lemma AddParentDeclares(d: Dax, ref: string, n: Node, m: Node)
    requires d.children != []
    requires Lookup(d.jobs, ref) >= 0 && Lookup(d.jobs, d.children[|d.children| - 1].ref) >= 0
    ensures var link := (JobNode(Lookup(d.jobs, ref)), JobNode(Lookup(d.jobs, d.children[|d.children| - 1].ref)));
            Declared(AddParent(d, ref), n, m) <==> Declared(d, n, m) || (n, m) == link
  {
    if n.JobNode? && m.JobNode? {
      var k, d' := |d.children| - 1, AddParent(d, ref);
      var before, after := d.children[k], d'.children[k];
      assert forall p :: p in after.parents <==> p in before.parents || p == ref;
      var isLink := n.i == Lookup(d.jobs, ref) && m.i == Lookup(d.jobs, before.ref);
      assert Orders(d.jobs, after, n.i, m.i) <==> Orders(d.jobs, before, n.i, m.i) || isLink;
      LastReplaced(d.children, d'.children, d.jobs, n.i, m.i);
    }
  }

  lemma LastReplaced(q: seq<Child>, r: seq<Child>, jobs: seq<Job>, i: nat, j: nat)
    requires |q| == |r| > 0 && q[..|q| - 1] == r[..|q| - 1]
    requires Orders(jobs, q[|q| - 1], i, j) ==> Orders(jobs, r[|q| - 1], i, j)
    ensures (exists c :: c in r && Orders(jobs, c, i, j)) <==>
            (exists c :: c in q && Orders(jobs, c, i, j)) || Orders(jobs, r[|q| - 1], i, j)
  {
    var k := |q| - 1;
    assert q == q[..k] + [q[k]] && r == q[..k] + [r[k]];
    assert forall c :: c in q <==> c in q[..k] || c == q[k];
    assert forall c :: c in r <==> c in q[..k] || c == r[k];
  }

  // ----- The activities that stand for the document -----

  function At(result: seq<Id>, files: map<string, Id>, n: Node): Id {
    match n
    case JobNode(i) => if 1 + i < |result| then result[1 + i] else 0
    case FileNode(f) => if f in files then files[f] else 0
  }

  /** Run times are those of a machine of 4.2 Gflops. */
  function JobAmount(job: Job): real { job.runtime * 4200000000.0 }

  /** The executions: root first, then the jobs in document order; end is kept apart. */
  ghost predicate ExecutionsStand(d: Dax, s: Store, result: seq<Id>, root: Id, end: Id) {
    && |result| == 1 + |d.jobs| && result[0] == root && NoRepeats(result) && end !in result
    && end in s && s[end].kind == Exec && s[end].name == "end" && s[end].amount == 0.0
    && root in s && s[root].kind == Exec && s[root].name == "root" && s[root].amount == 0.0
    && forall i :: 1 <= i < |result| ==>
         && result[i] in s && s[result[i]].kind == Exec && s[result[i]].name == JobName(d.jobs[i - 1])
         && s[result[i]].amount == JobAmount(d.jobs[i - 1])
  }

  /** One communication per file name, with the first size given for it. */
  ghost predicate FilesStand(d: Dax, s: Store, result: seq<Id>, files: map<string, Id>, end: Id) {
    && files.Keys == FileNames(d)
    && (forall f :: f in files ==> files[f] in s && files[f] !in result && files[f] != end
                                   && s[files[f]].kind == Comm && s[files[f]].name == f
                                   && s[files[f]].amount == FirstSize(AllUses(d.jobs), f))
    && (forall f, g :: f in files && g in files && files[f] == files[g] ==> f == g)
  }

  /** The execution of the first job with each id. */
  function Index(jobs: seq<Job>, result: seq<Id>): map<string, Id>
    requires |result| == 1 + |jobs|
  {
    if jobs == [] then map[]
    else
      var n := |jobs| - 1;
      var m := Index(jobs[..n], result[..n + 1]);
      if jobs[n].id in m then m else m[jobs[n].id := result[n + 1]]
  }

  lemma {:induction false} IndexMeaning(jobs: seq<Job>, result: seq<Id>, id: string)
    requires |result| == 1 + |jobs|
    ensures id in Index(jobs, result) <==> Lookup(jobs, id) >= 0
    ensures id in Index(jobs, result) ==> Index(jobs, result)[id] == result[1 + Lookup(jobs, id)]
  {
    if jobs != [] {
      var n := |jobs| - 1;
      IndexMeaning(jobs[..n], result[..n + 1], id);
      IndexMeaning(jobs[..n], result[..n + 1], jobs[n].id);
    }
  }

  lemma {:induction false} IndexSame(jobs: seq<Job>, jobs': seq<Job>, result: seq<Id>)
    requires |result| == 1 + |jobs| == 1 + |jobs'| && forall i :: 0 <= i < |jobs| ==> jobs'[i].id == jobs[i].id
    ensures Index(jobs', result) == Index(jobs, result)
  {
    if jobs != [] {
      var n := |jobs| - 1;
      IndexSame(jobs[..n], jobs'[..n], result[..n + 1]);
    }
  }

  ghost predicate Stands(d: Dax, result: seq<Id>, files: map<string, Id>, x: Id, y: Id) {
    exists n, m :: Declared(d, n, m) && At(result, files, n) == x && At(result, files, m) == y
  }

  ghost function LinkSet(d: Dax, result: seq<Id>, files: map<string, Id>): set<(Id, Id)> {
    set e | e in DeclaredEdges(d) :: (At(result, files, e.0), At(result, files, e.1))
  }

  /** The links are the declared edges. */
  ghost predicate LinksStand(d: Dax, s: Store, result: seq<Id>, files: map<string, Id>) {
    EdgesOf(s) == LinkSet(d, result, files)
  }

  lemma LinksMeaning(d: Dax, s: Store, result: seq<Id>, files: map<string, Id>, x: Id, y: Id)
    requires LinksStand(d, s, result, files)
    ensures Succ(s, x, y) <==> Stands(d, result, files, x, y)
  {
    assert Succ(s, x, y) <==> (x, y) in EdgesOf(s);
    if Stands(d, result, files, x, y) {
      var n, m :| Declared(d, n, m) && At(result, files, n) == x && At(result, files, m) == y;
      assert (n, m) in DeclaredEdges(d);
    }
    if (x, y) in LinkSet(d, result, files) {
      var e :| e in DeclaredEdges(d) && At(result, files, e.0) == x && At(result, files, e.1) == y;
      assert e == (e.0, e.1) && Declared(d, e.0, e.1);
    }
  }

  ghost predicate Represents(d: Dax, s: Store, result: seq<Id>, jobs: map<string, Id>, files: map<string, Id>,
                             root: Id, end: Id)
  {
    && ExecutionsStand(d, s, result, root, end) && FilesStand(d, s, result, files, end)
    && jobs == Index(d.jobs, result) && LinksStand(d, s, result, files)
    && forall x :: x in s ==> x == end || x in result || x in files.Values
  }

  lemma AtInjective(d: Dax, s: Store, result: seq<Id>, files: map<string, Id>, root: Id, end: Id, n: Node, m: Node)
    requires ExecutionsStand(d, s, result, root, end) && FilesStand(d, s, result, files, end)
    requires n in Nodes(d) && m in Nodes(d) && At(result, files, n) == At(result, files, m)
    ensures n == m
  {
  }

  /** An edge is linked exactly when it is declared. */
  lemma LinkedIffDeclared(d: Dax, s: Store, result: seq<Id>, files: map<string, Id>, root: Id, end: Id, n: Node, m: Node)
    requires ExecutionsStand(d, s, result, root, end) && FilesStand(d, s, result, files, end)
    requires LinksStand(d, s, result, files) && n in Nodes(d) && m in Nodes(d)
    ensures Succ(s, At(result, files, n), At(result, files, m)) <==> Declared(d, n, m)
  {
    LinksMeaning(d, s, result, files, At(result, files, n), At(result, files, m));
    if Stands(d, result, files, At(result, files, n), At(result, files, m)) {
      var n', m' :| Declared(d, n', m') && At(result, files, n') == At(result, files, n)
        && At(result, files, m') == At(result, files, m);
      DeclaredEnds(d, n', m');
      AtInjective(d, s, result, files, root, end, n, n');
      AtInjective(d, s, result, files, root, end, m, m');
    }
  }

  /** Declaring one more edge and linking it, with everything standing where it stood, keeps links and edges alike. */
  lemma LinksGrow(d: Dax, d': Dax, s: Store, s': Store, result: seq<Id>, files: map<string, Id>, result': seq<Id>,
                  files': map<string, Id>, adds: bool, e: (Node, Node))
    requires LinksStand(d, s, result, files)
    requires forall n :: n in Nodes(d) ==> At(result', files', n) == At(result, files, n)
    requires forall n, m :: Declared(d', n, m) <==> Declared(d, n, m) || (adds && (n, m) == e)
    requires EdgesOf(s') == EdgesOf(s) + if adds then {(At(result', files', e.0), At(result', files', e.1))} else {}
    ensures LinksStand(d', s', result', files')
  {
    forall g | g in DeclaredEdges(d)
      ensures At(result', files', g.0) == At(result, files, g.0) && At(result', files', g.1) == At(result, files, g.1)
    {
      assert g == (g.0, g.1);
      DeclaredEnds(d, g.0, g.1);
    }
    forall g ensures g in DeclaredEdges(d') <==> g in DeclaredEdges(d) || (adds && g == e) {
      assert g == (g.0, g.1) && (Declared(d', g.0, g.1) <==> Declared(d, g.0, g.1) || (adds && g == e));
    }
  }

  // ----- What each handler does to the representation -----

  lemma JobAddedLinks(d: Dax, s: Store, result: seq<Id>, files: map<string, Id>, a: Id, id: string, name: string,
                      runtime: real, n: Activity)
    requires LinksStand(d, s, result, files) && |result| == 1 + |d.jobs| && d.children == [] && EdgesOf(s[a := n]) == EdgesOf(s)
    ensures LinksStand(AddJob(d, id, name, runtime), s[a := n], result + [a], files)
  {
    var d' := AddJob(d, id, name, runtime);
    forall n, m ensures Declared(d', n, m) <==> Declared(d, n, m) { AddJobDeclares(d, id, name, runtime, n, m); }
    LinksGrow(d, d', s, s[a := n], result, files, result + [a], files, false, (JobNode(0), JobNode(0)));
  }

  lemma JobAddedIndex(d: Dax, result: seq<Id>, a: Id, id: string, name: string, runtime: real)
    requires |result| == 1 + |d.jobs|
    ensures var m := Index(d.jobs, result);
            Index(AddJob(d, id, name, runtime).jobs, result + [a]) == if id in m then m else m[id := a]
  {
    assert AddJob(d, id, name, runtime).jobs[..|d.jobs|] == d.jobs && (result + [a])[..|d.jobs| + 1] == result;
  }

  lemma JobAdded(d: Dax, s: Store, result: seq<Id>, jobs: map<string, Id>, files: map<string, Id>, root: Id, end: Id,
                 a: Id, id: string, name: string, runtime: real,
                 d': Dax, s': Store, result': seq<Id>, jobs': map<string, Id>)
    requires Represents(d, s, result, jobs, files, root, end) && d.children == [] && a !in s && Consistent(s)
    requires a in s' && s' == s[a := s'[a]]
    requires s'[a].kind == Exec && s'[a].name == id + "@" + name && s'[a].successors == [] && s'[a].dependencies == {}
    requires s'[a].amount == runtime * 4200000000.0
    requires d' == AddJob(d, id, name, runtime) && result' == result + [a]
    requires jobs' == if id in jobs then jobs else jobs[id := a]
    ensures Represents(d', s', result', jobs', files, root, end)
  {
    JobAddedFiles(d, s, result, files, end, a, id, name, runtime, s', result');
    JobAddedLive(s, result, files, end, a, s', result');
    JobAddedExecutions(d, s, result, root, end, a, d', s', result');
    hide FilesStand, LinksStand, EdgesOf, Consistent, ExecutionsStand, Index;
    AddIsolated(s, a, s'[a]);
    ExecutionsCount(d, s, result, root, end);
    JobAddedLinks(d, s, result, files, a, id, name, runtime, s'[a]);
    JobAddedIndex(d, result, a, id, name, runtime);
  }

  lemma ExecutionsCount(d: Dax, s: Store, result: seq<Id>, root: Id, end: Id)
    requires ExecutionsStand(d, s, result, root, end)
    ensures |result| == 1 + |d.jobs|
  {
  }

  lemma JobAddedLive(s: Store, result: seq<Id>, files: map<string, Id>, end: Id, a: Id, s': Store, result': seq<Id>)
    requires (forall x :: x in s ==> x == end || x in result || x in files.Values) && a in s' && s' == s[a := s'[a]] && result' == result + [a]
    ensures forall x :: x in s' ==> x == end || x in result' || x in files.Values
  {
  }

  lemma JobAddedFiles(d: Dax, s: Store, result: seq<Id>, files: map<string, Id>, end: Id, a: Id, id: string, name: string,
                      runtime: real, s': Store, result': seq<Id>)
    requires FilesStand(d, s, result, files, end) && d.children == [] && a !in s && a in s' && s' == s[a := s'[a]] && result' == result + [a]
    ensures FilesStand(AddJob(d, id, name, runtime), s', result', files, end)
  {
    AddJobDeclares(d, id, name, runtime, JobNode(0), JobNode(0));
  }

  lemma JobAddedExecutions(d: Dax, s: Store, result: seq<Id>, root: Id, end: Id, a: Id, d': Dax, s': Store, result': seq<Id>)
    requires ExecutionsStand(d, s, result, root, end) && a !in s && a in s' && s' == s[a := s'[a]] && result' == result + [a]
    requires |d'.jobs| == |d.jobs| + 1 && d'.jobs[..|d.jobs|] == d.jobs
    requires s'[a].kind == Exec && s'[a].name == JobName(d'.jobs[|d.jobs|]) && s'[a].amount == JobAmount(d'.jobs[|d.jobs|])
    ensures ExecutionsStand(d', s', result', root, end)
  {
    assert forall i :: 1 <= i < |result| ==> result'[i] == result[i] && d'.jobs[i - 1] == d.jobs[i - 1];
  }

  /** The file of a use has its activity, created on first use. */
  ghost predicate FileThere(s: Store, m: Store, files: map<string, Id>, files': map<string, Id>, u: Use) {
    && u.file in files' && files' == files[u.file := files'[u.file]]
    && (u.file in files ==> files' == files && m == s)
    && (u.file !in files ==>
          files'[u.file] !in s && m == s[files'[u.file] := Activity.Activity(Comm, u.file, u.size, [], {})])
  }

  lemma UseAdded(d: Dax, s: Store, m: Store, s': Store, result: seq<Id>, jobs: map<string, Id>, files: map<string, Id>,
                 files': map<string, Id>, root: Id, end: Id, u: Use, d': Dax)
    requires Represents(d, s, result, jobs, files, root, end) && Consistent(s) && d.children == [] && d.jobs != []
    requires FileThere(s, m, files, files', u) && SameActivities(m, s') && d' == AddUse(d, u)
    requires var job := result[|result| - 1];
             EdgesOf(s') == EdgesOf(m) + {if u.input then (files'[u.file], job) else (job, files'[u.file])}
    ensures Represents(d', s', result, jobs, files', root, end)
  {
    FileThereEdges(s, m, files, files', u);
    UseAddedLinks(d, s, s', result, files, files', u);
    UseAddedFiles(d, s, m, s', result, files, files', end, u);
    UseAddedJobs(d, s, s', result, root, end, u);
    NoStrangers(s, m, s', result, files, files', end, u);
  }

  lemma FileThereEdges(s: Store, m: Store, files: map<string, Id>, files': map<string, Id>, u: Use)
    requires FileThere(s, m, files, files', u) && Consistent(s)
    ensures EdgesOf(m) == EdgesOf(s) && Retains(s, m)
  {
    if u.file !in files { AddIsolated(s, files'[u.file], m[files'[u.file]]); }
  }

  lemma NoStrangers(s: Store, m: Store, s': Store, result: seq<Id>, files: map<string, Id>, files': map<string, Id>, end: Id, u: Use)
    requires forall x :: x in s ==> x == end || x in result || x in files.Values
    requires FileThere(s, m, files, files', u) && SameActivities(m, s')
    ensures forall x :: x in s' ==> x == end || x in result || x in files'.Values
  {
    forall x | x in s' ensures x == end || x in result || x in files'.Values {
      if x in s && x in files.Values {
        var f :| f in files && files[f] == x;
        assert f in files';
      }
      assert u.file in files';
    }
  }

  lemma UseAddedJobs(d: Dax, s: Store, s': Store, result: seq<Id>, root: Id, end: Id, u: Use)
    requires ExecutionsStand(d, s, result, root, end) && d.jobs != [] && Retains(s, s')
    ensures ExecutionsStand(AddUse(d, u), s', result, root, end)
    ensures Index(AddUse(d, u).jobs, result) == Index(d.jobs, result)
  {
    IndexSame(d.jobs, AddUse(d, u).jobs, result);
  }

  lemma UseAddedLinks(d: Dax, s: Store, s': Store, result: seq<Id>, files: map<string, Id>, files': map<string, Id>, u: Use)
    requires LinksStand(d, s, result, files) && d.children == [] && d.jobs != [] && files.Keys == FileNames(d)
    requires |result| == 1 + |d.jobs| && u.file in files' && files' == files[u.file := files'[u.file]]
    requires u.file in files ==> files' == files
    requires var job := result[|result| - 1];
             EdgesOf(s') == EdgesOf(s) + {if u.input then (files'[u.file], job) else (job, files'[u.file])}
    ensures LinksStand(AddUse(d, u), s', result, files')
  {
    var d', e := AddUse(d, u), UseEdge(d, u);
    forall n, m ensures Declared(d', n, m) <==> Declared(d, n, m) || (n, m) == e { AddUseDeclares(d, u, n, m); }
    LinksGrow(d, d', s, s', result, files, result, files', true, e);
  }

  lemma UseAddedFiles(d: Dax, s: Store, m: Store, s': Store, result: seq<Id>, files: map<string, Id>,
                      files': map<string, Id>, end: Id, u: Use)
    requires FilesStand(d, s, result, files, end) && d.jobs != [] && FileThere(s, m, files, files', u) && SameActivities(m, s')
    requires end in s && forall x :: x in result ==> x in s
    ensures FilesStand(AddUse(d, u), s', result, files', end)
  {
    AddUseCollected(d, u);
    assert files'.Keys == FileNames(AddUse(d, u));
    forall f | f in files' ensures s'[files'[f]].amount == FirstSize(AllUses(AddUse(d, u).jobs), f) {
      UseAddedSize(d, u, f);
    }
  }

  lemma ChildAdded(d: Dax, s: Store, result: seq<Id>, jobs: map<string, Id>, files: map<string, Id>, root: Id, end: Id, ref: string)
    requires Represents(d, s, result, jobs, files, root, end)
    ensures Represents(AddChild(d, ref), s, result, jobs, files, root, end)
  {
    var d' := AddChild(d, ref);
    forall n, m ensures Declared(d', n, m) <==> Declared(d, n, m) { AddChildDeclares(d, ref, n, m); }
    LinksGrow(d, d', s, s, result, files, result, files, false, (JobNode(0), JobNode(0)));
    SameJobsStand(d, d', s, s, result, files, root, end);
  }

  lemma ParentAdded(d: Dax, s: Store, s': Store, result: seq<Id>, jobs: map<string, Id>, files: map<string, Id>,
                    root: Id, end: Id, ref: string, child: Id, d': Dax)
    requires Represents(d, s, result, jobs, files, root, end) && ref in jobs && d.children != [] && SameActivities(s, s')
    requires Lookup(d.jobs, d.children[|d.children| - 1].ref) >= 0
    requires child == result[1 + Lookup(d.jobs, d.children[|d.children| - 1].ref)]
    requires EdgesOf(s') == EdgesOf(s) + {(jobs[ref], child)} && d' == AddParent(d, ref)
    ensures Represents(d', s', result, jobs, files, root, end)
  {
    ExecutionsCount(d, s, result, root, end);
    hide ExecutionsStand, FilesStand, LinksStand, Index, Lookup, EdgesOf, SameActivities;
    IndexMeaning(d.jobs, result, d.children[|d.children| - 1].ref);
    ParentAddedLinks(d, s, s', result, jobs, files, ref);
    SameJobsStand(d, d', s, s', result, files, root, end);
    SameLive(s, s', result, files, end);
  }

  lemma SameLive(s: Store, s': Store, result: seq<Id>, files: map<string, Id>, end: Id)
    requires SameActivities(s, s') && forall x :: x in s ==> x == end || x in result || x in files.Values
    ensures forall x :: x in s' ==> x == end || x in result || x in files.Values
  {
  }

  lemma SameJobsStand(d: Dax, d': Dax, s: Store, s': Store, result: seq<Id>, files: map<string, Id>, root: Id, end: Id)
    requires ExecutionsStand(d, s, result, root, end) && FilesStand(d, s, result, files, end)
    requires d'.jobs == d.jobs && SameActivities(s, s')
    ensures ExecutionsStand(d', s', result, root, end) && FilesStand(d', s', result, files, end)
  {
    assert FileNames(d') == FileNames(d);
  }

  lemma ParentAddedLinks(d: Dax, s: Store, s': Store, result: seq<Id>, jobs: map<string, Id>, files: map<string, Id>, ref: string)
    requires |result| == 1 + |d.jobs| && jobs == Index(d.jobs, result) && LinksStand(d, s, result, files) && d.children != []
    requires ref in jobs && d.children[|d.children| - 1].ref in jobs
    requires EdgesOf(s') == EdgesOf(s) + {(jobs[ref], jobs[d.children[|d.children| - 1].ref])}
    ensures LinksStand(AddParent(d, ref), s', result, files)
  {
    var d' := AddParent(d, ref);
    IndexMeaning(d.jobs, result, ref);
    IndexMeaning(d.jobs, result, d.children[|d.children| - 1].ref);
    var e := (JobNode(Lookup(d.jobs, ref)), JobNode(Lookup(d.jobs, d.children[|d.children| - 1].ref)));
    forall n, m ensures Declared(d', n, m) <==> Declared(d, n, m) || (n, m) == e { AddParentDeclares(d, ref, n, m); }
    LinksGrow(d, d', s, s', result, files, result, files, true, e);
  }

  // ----- When reading succeeds -----

  predicate UsesOnce(uses: seq<Use>) {
    forall i, j :: 0 <= i < j < |uses| ==> uses[i].file != uses[j].file || uses[i].input != uses[j].input
  }

  /** The control links of one element, as positions of parent and child; -1 stands for an unknown job. */
  function ChildLinks(jobs: seq<Job>, c: Child): seq<(int, int)> {
    seq(|c.parents|, k requires 0 <= k < |c.parents| => (Lookup(jobs, c.parents[k]), Lookup(jobs, c.ref)))
  }

  /** All control links in document order. */
  function Links(jobs: seq<Job>, children: seq<Child>): seq<(int, int)> {
    if children == [] then []
    else Links(jobs, children[..|children| - 1]) + ChildLinks(jobs, children[|children| - 1])
  }

  /** Every job named exists, none precedes itself, and no control link is given twice. */
  ghost predicate FineChildren(jobs: seq<Job>, children: seq<Child>) {
    && (forall c :: c in children ==> Lookup(jobs, c.ref) >= 0)
    && (forall e :: e in Links(jobs, children) ==> e.0 >= 0 && e.0 != e.1)
    && NoRepeats(Links(jobs, children))
  }

  /** The documents that are read without an exception. */
  ghost predicate Loadable(d: Dax) {
    (forall i :: 0 <= i < |d.jobs| ==> UsesOnce(d.jobs[i].uses)) && FineChildren(d.jobs, d.children)
  }

  lemma {:induction false} ControlIsLink(jobs: seq<Job>, children: seq<Child>, i: nat, j: nat)
    ensures (exists c :: c in children && Orders(jobs, c, i, j)) <==> (i, j) in Links(jobs, children)
  {
    if children != [] {
      var n := |children| - 1;
      var c := children[n];
      ControlIsLink(jobs, children[..n], i, j);
      assert children == children[..n] + [c];
      OrdersIsChildLink(jobs, c, i, j);
      assert forall x :: x in children <==> x in children[..n] || x == c;
    }
  }

  lemma OrdersIsChildLink(jobs: seq<Job>, c: Child, i: nat, j: nat)
    ensures Orders(jobs, c, i, j) <==> (i, j) in ChildLinks(jobs, c)
  {
    var q := ChildLinks(jobs, c);
    if Orders(jobs, c, i, j) {
      var p :| p in c.parents && Lookup(jobs, p) == i;
      var k :| 0 <= k < |c.parents| && c.parents[k] == p;
      assert q[k] == (i, j);
    }
    if (i, j) in q {
      var k :| 0 <= k < |q| && q[k] == (i, j);
      assert c.parents[k] in c.parents;
    }
  }

  lemma {:induction false} FinePrefix(jobs: seq<Job>, children: seq<Child>, n: nat)
    requires n <= |children|
    ensures Links(jobs, children[..n]) <= Links(jobs, children)
    ensures FineChildren(jobs, children) ==> FineChildren(jobs, children[..n])
  {
    if n < |children| {
      var m := |children| - 1;
      FinePrefix(jobs, children[..m], n);
      assert children[..m][..n] == children[..n];
      var q := Links(jobs, children[..n]);
      assert q <= Links(jobs, children[..m]) <= Links(jobs, children);
      assert forall e :: e in q ==> e in Links(jobs, children);
    } else {
      assert children[..n] == children;
    }
  }

  function WithChild(d: Dax, c: Child, k: nat): Dax
    requires k <= |c.parents|
  {
    d.(children := d.children + [c.(parents := c.parents[..k])])
  }

  /** The first `k` parents of the element can be linked one after the other. */
  ghost predicate ParentsFit(d: Dax, c: Child, k: nat)
    requires k <= |c.parents|
  {
    forall i :: 0 <= i < k ==> ParentFits(d, c, i)
  }

  ghost predicate ParentFits(d: Dax, c: Child, i: nat)
    requires i < |c.parents|
  {
    var p, j := Lookup(d.jobs, c.parents[i]), Lookup(d.jobs, c.ref);
    p >= 0 && p != j && !(j >= 0 && Control(WithChild(d, c, i), p, j))
  }

  /** A parent fits when its link is sound and new. */
  lemma FitsIffNew(d: Dax, c: Child, i: nat)
    requires i < |c.parents| && Lookup(d.jobs, c.ref) >= 0
    ensures var q := ChildLinks(d.jobs, c);
            ParentFits(d, c, i) <==> q[i].0 >= 0 && q[i].0 != q[i].1 && q[i] !in Links(d.jobs, d.children) + q[..i]
  {
    var q, c' := ChildLinks(d.jobs, c), c.(parents := c.parents[..i]);
    var children' := WithChild(d, c, i).children;
    assert children'[..|d.children|] == d.children && children'[|d.children|] == c';
    assert ChildLinks(d.jobs, c') == q[..i];
    assert Links(d.jobs, children') == Links(d.jobs, d.children) + q[..i];
    if q[i].0 >= 0 { ControlIsLink(d.jobs, children', q[i].0, q[i].1); }
  }

  lemma AllFit(d: Dax, c: Child)
    requires Lookup(d.jobs, c.ref) >= 0 && FineChildren(d.jobs, d.children)
    ensures ParentsFit(d, c, |c.parents|) <==> FineChildren(d.jobs, d.children + [c])
  {
    var L, q := Links(d.jobs, d.children), ChildLinks(d.jobs, c);
    assert (d.children + [c])[..|d.children|] == d.children;
    assert Links(d.jobs, d.children + [c]) == L + q;
    forall i | 0 <= i < |q|
      ensures ParentFits(d, c, i) <==> q[i].0 >= 0 && q[i].0 != q[i].1 && q[i] !in L + q[..i]
    {
      FitsIffNew(d, c, i);
    }
    NewEach(L, q);
  }

  /** Appended elements are all new exactly when nothing is repeated. */
  lemma NewEach(L: seq<(int, int)>, q: seq<(int, int)>)
    requires NoRepeats(L)
    ensures NoRepeats(L + q) <==> forall i :: 0 <= i < |q| ==> q[i] !in L + q[..i]
  {
    var r := L + q;
    if NoRepeats(r) {
      forall i | 0 <= i < |q| ensures q[i] !in L + q[..i] {
        var n := |L| + i;
        assert r[n] == q[i] && L + q[..i] == r[..n];
      }
    }
    if forall i :: 0 <= i < |q| ==> q[i] !in L + q[..i] {
      forall i, j | 0 <= i < j < |r| ensures r[i] != r[j] {
        if j >= |L| {
          assert r[j] == q[j - |L|] && L + q[..j - |L|] == r[..j];
          assert r[i] in r[..j];
        }
      }
    }
  }
}
