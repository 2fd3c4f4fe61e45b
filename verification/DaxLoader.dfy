/** Loading a DAX document into a graph of activities. */
module DaxLoader {
  import opened Common
  import opened Graphs
  import opened Activities
  import opened DaxGraph
  import opened TransferNames
  import opened DaxReader
  import opened DaxExpansion

  class Loader {
    const heap: ActivityGraph
    var result: seq<Id>
    var jobs: map<string, Id>
    var files: map<string, Id>
    var root: Id
    var end: Id
    var currentJob: Option<Id>
    var currentChild: Option<Id>
    ghost var doc: Dax        // the document read so far
    ghost var made: seq<Handled>  // the handler calls made
    ghost var layout: Layout  // which activity stands for what, once files are being duplicated

    /** The activities are those of the document read so far. */
    ghost predicate Reading() reads this, heap {
      && heap.Valid() && heap.marked == {} && |result| == 1 + |doc.jobs|
      && Represents(doc, heap.store, result, jobs, files, root, end)
    }

    constructor ()
      ensures fresh(heap) && Reading() && doc == Dax([], []) && made == []
    {
      heap := new ActivityGraph();
      result, jobs, files, currentJob, currentChild := [], map[], map[], None, None;
      doc, made := Dax([], []), [];
      new;
      root := heap.Create(Exec, "root", 0.0);
      result := [root];
      end := heap.Create(Exec, "end", 0.0);
      assert FileNames(doc) == {};
      NothingDeclared();
    }

    // ----- Tag handlers -----

    /** Only one version of the format is read. */
    method STagAdag(version: real) returns (ok: bool)
      requires Reading()
      modifies this`made
      ensures Reading() && made == old(made) + [OnAdag(version)] && (ok <==> version == 2.1)
    {
      made := made + [OnAdag(version)];
      ok := version == 2.1;
    }

    method STagJob(id: string, name: string, runtime: real)
      requires Reading() && doc.children == []
      modifies this, heap
      ensures Reading() && doc == AddJob(old(doc), id, name, runtime) && made == old(made) + [OnJob(id, name, runtime)]
      ensures currentJob == Some(result[|result| - 1])
    {
      hide Represents;
      var a := heap.Create(Exec, id + "@" + name, runtime * 4200000000.0);
      currentJob := Some(a);
      jobs := if id in jobs then jobs else jobs[id := a];
      result := result + [a];
      doc := AddJob(doc, id, name, runtime);
      made := made + [OnJob(id, name, runtime)];
      JobAdded(old(doc), old(heap.store), old(result), old(jobs), files, root, end, a, id, name, runtime,
               doc, heap.store, result, jobs);
    }

    method ETagJob()
      modifies this`currentJob, this`made
      ensures currentJob == None && made == old(made) + [OnJobEnd]
    {
      made := made + [OnJobEnd];
      currentJob := None;
    }

    /** Fails on the second use of a file by the same job in the same direction. */
    /** The communication of a file is made at its first use. */
    method NeedFile(u: Use)
      requires heap.Valid() && heap.marked == {}
      modifies this`files, heap
      ensures heap.Valid() && heap.marked == {} && u.file in files && FileThere(old(heap.store), heap.store, old(files), files, u)
    {
      if u.file !in files {
        var a := heap.Create(Comm, u.file, u.size);
        files := files[u.file := a];
      }
    }

    method STagUses(u: Use) returns (ok: bool)
      requires Reading() && doc.children == [] && doc.jobs != []
      requires currentJob == Some(result[|result| - 1])
      modifies this`files, this`doc, this`made, heap
      ensures ok <==> !Declared(old(doc), UseEdge(old(doc), u).0, UseEdge(old(doc), u).1)
      ensures ok ==> Reading() && doc == AddUse(old(doc), u)
      ensures made == old(made) + [OnUse(u)]
    {
      hide Represents, Declared, DocCalls, FileThere, EdgesOf, Consistent, SameActivities;
      NeedFile(u);
      var from, to := if u.input then files[u.file] else currentJob.value, if u.input then currentJob.value else files[u.file];
      ghost var m := heap.store;
      FileReady(doc, old(heap.store), m, result, jobs, old(files), files, root, end, u);
      EdgeIsSucc(m, from, to);
      ok := heap.AddSuccessor(from, to);
      if ok {
        doc := AddUse(doc, u);
        UseAdded(old(doc), old(heap.store), m, heap.store, result, jobs, old(files), files, root, end, u, doc);
      }
      made := made + [OnUse(u)];
    }

    method STagChild(ref: string) returns (ok: bool)
      requires Reading()
      modifies this`currentChild, this`doc, this`made
      ensures ok <==> Lookup(old(doc).jobs, ref) >= 0
      ensures ok ==> Reading() && doc == AddChild(old(doc), ref)
      ensures ok ==> currentChild == Some(result[1 + Lookup(doc.jobs, ref)])
      ensures made == old(made) + [OnChild(ref)]
    {
      made := made + [OnChild(ref)];
      hide Represents;
      ok := ref in jobs;
      JobKnown(doc, heap.store, result, jobs, files, root, end, ref);
      if ok {
        currentChild := Some(jobs[ref]);
        ChildAdded(doc, heap.store, result, jobs, files, root, end, ref);
        doc := AddChild(doc, ref);
      }
    }

    method ETagChild()
      modifies this`currentChild, this`made
      ensures currentChild == None && made == old(made) + [OnChildEnd]
    {
      made := made + [OnChildEnd];
      currentChild := None;
    }

    /** Fails on an unknown parent, on the child itself and on a parent listed twice. */
    method STagParent(ref: string) returns (ok: bool)
      requires Reading() && doc.children != [] && Lookup(doc.jobs, doc.children[|doc.children| - 1].ref) >= 0
      requires currentChild == Some(result[1 + Lookup(doc.jobs, doc.children[|doc.children| - 1].ref)])
      modifies this`doc, this`made, heap
      ensures made == old(made) + [OnParent(ref)]
      ensures var p, c := Lookup(old(doc).jobs, ref), Lookup(old(doc).jobs, old(doc).children[|old(doc).children| - 1].ref);
              ok <==> p >= 0 && p != c && !Control(old(doc), p, c)
      ensures ok ==> Reading() && doc == AddParent(old(doc), ref)
    {
      hide Represents, Control, Lookup, EdgesOf, Consistent, SameActivities;
      made := made + [OnParent(ref)];
      ok := ref in jobs;
      JobKnown(doc, heap.store, result, jobs, files, root, end, ref);
      if ok {
        ParentReady(doc, heap.store, result, jobs, files, root, end, Lookup(doc.jobs, ref),
                    Lookup(doc.jobs, doc.children[|doc.children| - 1].ref));
        EdgeIsSucc(heap.store, jobs[ref], currentChild.value);
        ok := heap.AddSuccessor(jobs[ref], currentChild.value);
        if ok {
          doc := AddParent(doc, ref);
          ParentAdded(old(doc), old(heap.store), heap.store, result, jobs, files, root, end, ref, currentChild.value, doc);
        }
      }
    }

    // ----- Reading a whole document -----

    method ReadJob(job: Job) returns (ok: bool)
      requires Reading() && doc.children == []
      modifies this, heap
      ensures ok <==> UsesOnce(job.uses)
      ensures ok ==> Reading() && doc == old(doc).(jobs := old(doc).jobs + [job]) && made == old(made) + JobCalls(job)
    {
      hide Represents;
      STagJob(job.id, job.name, job.runtime);
      for k := 0 to |job.uses|
        invariant Reading() && currentJob == Some(result[|result| - 1])
        invariant doc == old(doc).(jobs := old(doc).jobs + [job.(uses := job.uses[..k])])
        invariant UsesOnce(job.uses[..k]) && made == old(made) + [OnJob(job.id, job.name, job.runtime)] + UseCalls(job.uses[..k])
      {
        ghost var before := doc;
        UseIsNew(doc, job.uses, k);
        ok := STagUses(job.uses[k]);
        if !ok { return false; }
        assert job.uses[..k + 1] == job.uses[..k] + [job.uses[k]];
        assert doc.jobs == old(doc).jobs + [job.(uses := job.uses[..k + 1])];
      }
      assert job.uses[..|job.uses|] == job.uses && job.(uses := job.uses) == job;
      ETagJob();
      ok := true;
    }

    method ReadJobs(jobs: seq<Job>) returns (ok: bool)
      requires Reading() && doc == Dax([], [])
      modifies this, heap
      ensures ok <==> forall i :: 0 <= i < |jobs| ==> UsesOnce(jobs[i].uses)
      ensures ok ==> Reading() && doc == Dax(jobs, []) && made == old(made) + JobsCalls(jobs)
    {
      hide Represents, JobsCalls, JobCalls;
      NoCalls();
      for i := 0 to |jobs|
        invariant Reading() && doc == Dax(jobs[..i], []) && made == old(made) + JobsCalls(jobs[..i])
        invariant forall k :: 0 <= k < i ==> UsesOnce(jobs[k].uses)
      {
        ok := ReadJob(jobs[i]);
        if !ok { return; }
        assert jobs[..i + 1] == jobs[..i] + [jobs[i]];
        JobsCallsNext(jobs, i);
      }
      assert jobs[..|jobs|] == jobs;
      ok := true;
    }

    method ReadChild(c: Child) returns (ok: bool)
      requires Reading()
      modifies this, heap
      ensures ok <==> Lookup(old(doc).jobs, c.ref) >= 0 && ParentsFit(old(doc), c, |c.parents|)
      ensures ok ==> Reading() && doc == old(doc).(children := old(doc).children + [c]) && made == old(made) + ChildCalls(c)
    {
      hide Represents, Lookup, ParentsFit, WithChild, AddParent, ParentCalls;
      ok := STagChild(c.ref);
      if !ok { return; }
      ChildStarts(old(doc), c);
      for k := 0 to |c.parents|
        invariant Reading() && currentChild == Some(result[1 + Lookup(doc.jobs, c.ref)]) && Lookup(doc.jobs, c.ref) >= 0
        invariant doc == WithChild(old(doc), c, k)
        invariant ParentsFit(old(doc), c, k) && made == old(made) + [OnChild(c.ref)] + ParentCalls(c.parents[..k])
      {
        ChildGrows(old(doc), c, k);
        ok := STagParent(c.parents[k]);
        if !ok { return; }
      }
      assert c.parents[..|c.parents|] == c.parents;
      ChildDone(old(doc), c);
      ETagChild();
      ok := true;
    }

    method ReadChildren(children: seq<Child>) returns (ok: bool)
      requires Reading() && doc.children == []
      modifies this, heap
      ensures ok <==> FineChildren(old(doc).jobs, children)
      ensures ok ==> Reading() && doc == Dax(old(doc).jobs, children) && made == old(made) + ChildrenCalls(children)
    {
      hide Represents, FineChildren, ParentsFit, ChildrenCalls, ChildCalls;
      NoCalls();
      ghost var jobs0 := doc.jobs;
      assert FineChildren(jobs0, []) by { NoChildren(jobs0); }
      for i := 0 to |children|
        invariant Reading() && doc == Dax(jobs0, children[..i]) && FineChildren(jobs0, children[..i])
        invariant made == old(made) + ChildrenCalls(children[..i])
      {
        assert children[..i + 1] == children[..i] + [children[i]];
        ChildrenCallsNext(children, i);
        ChildReadable(doc, children[i]);
        ok := ReadChild(children[i]);
        FinePrefix(jobs0, children, i + 1);
        if !ok { return; }
      }
      assert children[..|children|] == children;
      ok := true;
    }

    method Read(d: Dax) returns (ok: bool)
      requires Reading() && doc == Dax([], [])
      modifies this, heap
      ensures ok <==> Loadable(d)
      ensures ok ==> Reading() && doc == d && made == old(made) + DocCalls(d)
    {
      hide Represents, FineChildren, UsesOnce, JobsCalls, ChildrenCalls;
      ok := ReadJobs(d.jobs);
      if ok {
        ok := ReadChildren(d.children);
      }
    }

    // ----- Duplicating files -----

    ghost predicate Duplicates(left: set<string>) reads this, heap {
      && heap.Valid() && heap.marked == {} && left <= files.Keys
      && layout.root == root && layout.end == end && |layout.job| == |doc.jobs|
      && Duplicating(doc, layout, heap.store, files, left)
      && Listed(layout, result)
    }

    method MakeTransfer(file: string, from: Id, to: Id, ghost left: set<string>)
      requires Duplicates(left) && file in left
      requires Wanted(doc, layout, Transfer(from, file, to)) && Transfer(from, file, to) !in layout.origin.Values
      modifies this`result, this`layout, heap
      ensures Duplicates(left)
      ensures layout == old(layout).(origin := layout.origin)
      ensures layout.origin.Values == old(layout).origin.Values + {Transfer(from, file, to)}
    {
      hide Duplicating, Wanted, Listed, Consistent, EdgesOf, SameActivities, Link, AllUses, FirstSize, NoRepeats;
      EndsLive(doc, layout, heap.store, files, left, Transfer(from, file, to));
      var t := heap.Create(Comm, file, heap.store[files[file]].amount);
      ghost var m := heap.store;
      var ok := heap.AddSuccessor(from, t);
      assert ok by { Fresh(old(heap.store), m, t, from); }
      ghost var n := heap.store;
      ok := heap.AddSuccessor(t, to);
      SameTransitive(m, n, heap.store);
      assert ok by { FreshLinked(old(heap.store), m, t, from, to); }
      result := result + [t];
      layout := WithTransfer(layout, t, Transfer(from, file, to));
      NewTransfer(doc, old(layout), old(heap.store), m, heap.store, files, left, old(result), t, Transfer(from, file, to),
                  layout, result);
    }

    method CopyToEach(file: string, from: Id, tos: seq<Id>, ghost left: set<string>, ghost l0: Layout, ghost made: set<(Id, Id)>)
      returns (ghost made': set<(Id, Id)>)
      requires Duplicates(left) && file in left && file in FileNames(doc) && Partly(doc, l0, layout, file, made)
      requires Unstarted(l0, file) && NoRepeats(tos) && IsSource(doc, l0, file, from)
      requires forall y :: y in tos ==> IsTarget(doc, l0, file, y) && (from, y) !in made
      modifies this`result, this`layout, heap
      ensures Duplicates(left) && Partly(doc, l0, layout, file, made')
      ensures made' == made + set y | y in tos :: (from, y)
    {
      hide Duplicating, Listed, Partly, IsSource, IsTarget, Unstarted, FileNames, Consistent;
      made' := made;
      for k := 0 to |tos|
        invariant Duplicates(left) && Partly(doc, l0, layout, file, made')
        invariant made' == made + set y | y in tos[..k] :: (from, y)
      {
        assert tos[k] in tos && tos[k] !in tos[..k];
        WantedNew(doc, l0, layout, file, made', from, tos[k]);
        ghost var l := layout;
        MakeTransfer(file, from, tos[k], left);
        PartlyMore(doc, l0, l, layout, file, made', from, tos[k]);
        made' := made' + {(from, tos[k])};
        assert tos[..k + 1] == tos[..k] + [tos[k]];
      }
      assert tos[..|tos|] == tos;
    }

    method CopyFromEach(file: string, froms: set<Id>, tos: seq<Id>, ghost left: set<string>, ghost l0: Layout, ghost made: set<(Id, Id)>)
      returns (ghost made': set<(Id, Id)>)
      requires Duplicates(left) && file in left && file in FileNames(doc) && Partly(doc, l0, layout, file, made)
      requires Unstarted(l0, file) && NoRepeats(tos)
      requires forall x :: x in froms ==> IsSource(doc, l0, file, x)
      requires forall y :: y in tos ==> IsTarget(doc, l0, file, y)
      requires forall x, y :: x in froms && y in tos ==> (x, y) !in made
      modifies this`result, this`layout, heap
      ensures Duplicates(left) && Partly(doc, l0, layout, file, made')
      ensures made' == made + set x, y | x in froms && y in tos :: (x, y)
    {
      hide Duplicating, Listed, Partly, IsSource, IsTarget, Unstarted, FileNames, Consistent;
      made' := made;
      var todo := froms;
      while todo != {}
        invariant todo <= froms && Duplicates(left) && Partly(doc, l0, layout, file, made')
        invariant made' == made + set x, y | x in froms - todo && y in tos :: (x, y)
        decreases todo
      {
        var x :| x in todo;
        made' := CopyToEach(file, x, tos, left, l0, made');
        todo := todo - {x};
      }
      assert froms - todo == froms;
    }

    /** One transfer per pair of a producer, or root, and a consumer, or end; then the file itself is freed. */
    method DuplicateFile(file: string, ghost left: set<string>)
      requires Duplicates(left) && file in left && file in FileNames(doc) && DoneFiles(doc, layout, left)
      modifies this`result, this`layout, heap
      ensures Duplicates(left - {file}) && DoneFiles(doc, layout, left - {file})
    {
      hide Duplicating, Listed, Partly, IsSource, IsTarget, FileNames, Consistent, DoneFiles;
      ghost var l0, made := layout, {};
      FileUsedBy(doc, layout, heap.store, files, left, file);
      var froms, tos := heap.store[files[file]].dependencies, heap.store[files[file]].successors;
      NotStarted(doc, l0, heap.store, files, left, file, froms, tos);
      if froms == {} {
        made := CopyToEach(file, root, tos, left, l0, made);
      }
      if tos == [] {
        made := CopyFromEach(file, froms, [end], left, l0, made);
      }
      made := CopyFromEach(file, froms, tos, left, l0, made);
      FileDone(doc, l0, layout, left, file, froms, tos, made);
      ghost var s := heap.store;
      FileLive(doc, layout, s, files, left, file);
      heap.Destroy(files[file]);
      Freed(doc, layout, s, heap.store, files, left, file);
    }

    method DuplicateFiles()
      requires Duplicates(files.Keys) && files.Keys == FileNames(doc) && DoneFiles(doc, layout, files.Keys)
      modifies this`result, this`layout, heap
      ensures Duplicates({}) && DoneFiles(doc, layout, {})
    {
      hide Duplicating, Listed, DoneFiles, Consistent;
      var left := files.Keys;
      while left != {}
        invariant left <= files.Keys && Duplicates(left) && DoneFiles(doc, layout, left)
        decreases left
      {
        var f :| f in left;
        DuplicateFile(f, left);
        left := left - {f};
      }
    }

    // ----- Anchoring executions, naming transfers -----

    ghost predicate Anchors(done: set<Id>, seen: set<Id>) reads this, heap {
      && heap.Valid() && heap.marked == {}
      && layout.root == root && layout.end == end && |layout.job| == |doc.jobs|
      && root !in layout.job && end !in layout.job
      && Complete(doc, layout, heap.store) && Anchoring(doc, layout, heap.store, done) && Renaming(doc, layout, heap.store, seen)
    }

    /** Connects to the root an execution without predecessors, and to the end one without successors. */
    method AnchorExec(a: Id, ghost done: set<Id>, ghost seen: set<Id>)
      requires Anchors(done, seen) && a in layout.job && a !in done && root !in done && end !in done
      modifies heap`store
      ensures Anchors(done + {a}, seen + {a}) && heap.store.Keys == old(heap.store).Keys
    {
      hide Complete, Anchoring, Renaming, Consistent, EdgesOf;
      ghost var s := heap.store;
      ExecLive(doc, layout, s, a);
      Unlinked(s, root, a, end);
      if heap.store[a].dependencies == {} {
        var ok := heap.AddSuccessor(root, a);
      }
      if heap.store[a].successors == [] {
        var ok := heap.AddSuccessor(a, end);
      }
      ExecAnchored(doc, layout, s, heap.store, done, a);
      ExecNotRenamed(doc, layout, s, heap.store, seen, a);
    }

    /** Names a transfer after its two ends. */
    method NameTransfer(t: Id, ghost done: set<Id>, ghost seen: set<Id>)
      requires Anchors(done, seen) && t in layout.origin && t !in seen
      modifies heap`store
      ensures Anchors(done, seen + {t}) && heap.store.Keys == old(heap.store).Keys
    {
      hide Complete, Anchoring, Renaming, Consistent, EdgesOf;
      ghost var s := heap.store;
      TransferAlone(doc, layout, s, done, t);
      NamesAre(doc, layout, s, seen, t);
      var child := heap.store[t].successors[0];
      var parent :| parent in heap.store[t].dependencies;
      var name := heap.store[parent].name + "_" + heap.store[t].name + "_" + heap.store[child].name;
      heap.Rename(t, name);
      TransferRenamed(doc, layout, s, heap.store, done, seen, t, name);
    }

    method AnchorAll()
      requires Anchors({}, {}) && NoRepeats(result) && forall x :: x in result <==> x in heap.store
      modifies heap`store
      ensures Anchors(Executions(layout), Everything(result)) && heap.store.Keys == old(heap.store).Keys
    {
      hide Complete, Anchoring, Renaming, Consistent, EdgesOf, Settled, Everything;
      Nothing(layout);
      for k := 0 to |result|
        invariant heap.store.Keys == old(heap.store).Keys
        invariant Anchors(Settled(layout, result[..k]), Everything(result[..k]))
      {
        var a := result[k];
        assert a in result;
        OneMore(layout, result, k);
        KindTold(doc, layout, heap.store, a);
        if heap.store[a].kind == Comm {
          NameTransfer(a, Settled(layout, result[..k]), Everything(result[..k]));
        } else if a != root && a != end {
          AnchorExec(a, Settled(layout, result[..k]), Everything(result[..k]));
        } else {
          ExecNotRenamed(doc, layout, heap.store, heap.store, Everything(result[..k]), a);
        }
      }
      assert result[..|result|] == result;
      AllSettled(doc, layout, heap.store, result);
    }

    // ----- The whole load -----

    method DestroyAll()
      requires heap.Valid() && NoRepeats(result) && forall x :: x in result <==> x in heap.store
      modifies this`result, heap
      ensures result == [] && heap.store == map[]
    {
      hide Consistent, EdgesOf;
      var dag := result;
      for k := 0 to |dag|
        invariant heap.Valid() && forall x :: x in heap.store <==> x in dag[k..]
      {
        assert dag[k..] == [dag[k]] + dag[k + 1..] && dag[k] !in dag[k + 1..];
        heap.Destroy(dag[k]);
      }
      assert heap.store.Keys == {};
      result := [];
    }

    /** Duplicates the files, names the transfers and anchors the executions. */
    method Expand()
      requires Reading()
      modifies this, heap
      ensures heap.Valid() && heap.marked == {} && ProperTransfers(heap.store) && doc == old(doc) && made == old(made)
      ensures Complete(doc, layout, heap.store) && Expanded(doc, layout, heap.Edges()) && Renaming(doc, layout, heap.store, heap.store.Keys)
      ensures result != [] && NoRepeats(result) && forall x :: x in result <==> x in heap.store
    {
      hide Represents, Duplicating, DoneFiles, Complete, Anchoring, Renaming, Expanded, Consistent, EdgesOf, ProperTransfers;
      layout := Layout(result[1..], root, end, map[]);
      StartDuplicating(doc, heap.store, result, jobs, files, root, end, layout);
      StartListed(doc, heap.store, result, jobs, files, root, end, layout);
      DuplicateFiles();
      DuplicationDone(doc, layout, heap.store, files);
      EverythingListed(doc, layout, heap.store, result);
      result := result + [end];
      AnchorAll();
      AllAnchored(doc, layout, heap.store, Executions(layout));
      CompleteIsProper(doc, layout, heap.store, Executions(layout));
      assert Everything(result) == heap.store.Keys;
    }

    /** Fails exactly on the documents that are not loadable; otherwise leaves the expansion of the document, or
        nothing when what it declares is cyclic. */
    method Load(d: Dax) returns (ok: bool)
      requires Reading() && doc == Dax([], [])
      modifies this, heap
      ensures ok <==> Loadable(d)
      ensures ok ==> made == old(made) + DocCalls(d)
      ensures ok ==> (result != [] <==> Acyclic(DeclaredEdges(d)))
      ensures ok && result != [] ==>
                && Complete(d, layout, heap.store) && Expanded(d, layout, heap.Edges())
                && Renaming(d, layout, heap.store, heap.store.Keys)
                && NoRepeats(result) && forall x :: x in result <==> x in heap.store
      ensures ok && result == [] ==> heap.store == map[]
    {
      hide Represents, Complete, Renaming, Expanded, Consistent, EdgesOf, Loadable, ProperTransfers, Acyclic, DeclaredEdges, DocCalls;
      ok := Read(d);
      if !ok { return; }
      Expand();
      ExpansionPreservesAcyclicity(doc, layout, heap.Edges());
      var acyclic := heap.CheckForCycle(result);
      if !acyclic {
        DestroyAll();
      }
    }
  }

  lemma StartListed(d: Dax, s: Store, result: seq<Id>, jobs: map<string, Id>, files: map<string, Id>, root: Id, end: Id, l: Layout)
    requires Represents(d, s, result, jobs, files, root, end) && |result| == 1 + |d.jobs|
    requires l == Layout(result[1..], root, end, map[])
    ensures Listed(l, result)
  {
    hide LinksStand, FilesStand;
    assert result == [result[0]] + result[1..];
  }

  lemma EverythingListed(d: Dax, l: Layout, s: Store, result: seq<Id>)
    requires Complete(d, l, s) && Listed(l, result)
    ensures NoRepeats(result + [l.end]) && forall x :: x in result + [l.end] <==> x in s
    ensures l.root !in l.job && l.end !in l.job
  {
    assert l.end !in result;
  }

  ghost function Everything(q: seq<Id>): set<Id> { set x | x in q }

  ghost function Settled(l: Layout, q: seq<Id>): set<Id> { set x | x in q && x in l.job }

  lemma Nothing(l: Layout)
    ensures Settled(l, []) == {} == Everything([])
  {
  }

  lemma OneMore(l: Layout, q: seq<Id>, k: nat)
    requires NoRepeats(q) && k < |q| && l.root !in l.job && l.end !in l.job
    ensures q[k] !in Everything(q[..k]) && q[k] !in Settled(l, q[..k])
    ensures Everything(q[..k + 1]) == Everything(q[..k]) + {q[k]}
    ensures Settled(l, q[..k + 1]) == if q[k] in l.job then Settled(l, q[..k]) + {q[k]} else Settled(l, q[..k])
    ensures l.root !in Settled(l, q[..k]) && l.end !in Settled(l, q[..k])
  {
    assert q[..k + 1] == q[..k] + [q[k]];
  }

  lemma KindTold(d: Dax, l: Layout, s: Store, a: Id)
    requires Complete(d, l, s) && a in s
    ensures s[a].kind == Comm <==> a in l.origin
    ensures s[a].kind == Exec ==> a == l.root || a == l.end || a in l.job
    ensures a in l.job ==> a !in l.origin && a != l.root && a != l.end
    ensures a in l.origin ==> a !in l.job
  {
  }

  lemma AllSettled(d: Dax, l: Layout, s: Store, q: seq<Id>)
    requires Complete(d, l, s) && forall x :: x in q <==> x in s
    ensures Settled(l, q) == Executions(l)
  {
  }

  lemma ExecLive(d: Dax, l: Layout, s: Store, a: Id)
    requires Complete(d, l, s) && a in l.job
    ensures a in s && s[a].kind == Exec && l.root in s && l.end in s && a != l.root && a != l.end
  {
  }

  lemma ExecNotRenamed(d: Dax, l: Layout, s: Store, s': Store, seen: set<Id>, a: Id)
    requires Complete(d, l, s) && Renaming(d, l, s, seen) && a in s && s[a].kind == Exec && SameActivities(s, s')
    ensures Renaming(d, l, s', seen + {a})
  {
  }

  lemma NamesAre(d: Dax, l: Layout, s: Store, seen: set<Id>, t: Id)
    requires Complete(d, l, s) && Renaming(d, l, s, seen) && t in l.origin && t !in seen
    requires l.origin[t].from in s && l.origin[t].from !in l.origin && l.origin[t].to in s && l.origin[t].to !in l.origin
    ensures t in s && s[t].name == l.origin[t].file
    ensures s[l.origin[t].from].name == ExecName(d, l, l.origin[t].from)
    ensures s[l.origin[t].to].name == ExecName(d, l, l.origin[t].to)
  {
  }

  lemma NotStarted(d: Dax, l: Layout, s: Store, files: map<string, Id>, left: set<string>, f: string, D: set<Id>, S: seq<Id>)
    requires left <= files.Keys && Duplicating(d, l, s, files, left) && DoneFiles(d, l, left) && f in left
    requires f in FileNames(d) && UsedBy(d, l, f, D, S)
    ensures Unstarted(l, f) && Partly(d, l, l, f, {}) && (D != {} || S != [])
  {
    SomeEnd(d, l, f, D, S);
  }

  lemma FileLive(d: Dax, l: Layout, s: Store, files: map<string, Id>, left: set<string>, f: string)
    requires left <= files.Keys && Duplicating(d, l, s, files, left) && f in left
    ensures files[f] in s
  {
  }

  lemma Freed(d: Dax, l: Layout, s: Store, s': Store, files: map<string, Id>, left: set<string>, f: string)
    requires left <= files.Keys && Duplicating(d, l, s, files, left) && f in left
    requires s'.Keys == s.Keys - {files[f]} && SameActivities(s - {files[f]}, s')
    requires EdgesOf(s') == set e | e in EdgesOf(s) && e.0 != files[f] && e.1 != files[f]
    ensures Duplicating(d, l, s', files, left - {f})
  {
    forall x: Id, y: Id ensures Succ(s', x, y) <==> Succ(s, x, y) && x != files[f] && y != files[f] {
      EdgeIsSucc(s, x, y);
      EdgeIsSucc(s', x, y);
    }
    FileFreed(d, l, s, s', files, left, f);
  }

  ghost predicate Listed(l: Layout, result: seq<Id>) {
    NoRepeats(result) && forall x :: x in result <==> x == l.root || x in l.job || x in l.origin
  }

  lemma EndsLive(d: Dax, l: Layout, s: Store, files: map<string, Id>, left: set<string>, tr: Transfer)
    requires left <= files.Keys && Duplicating(d, l, s, files, left) && Wanted(d, l, tr) && tr.file in left
    ensures tr.from in s && tr.to in s && files[tr.file] in s
    ensures s[files[tr.file]].amount == FirstSize(AllUses(d.jobs), tr.file)
  {
  }

  lemma FreshLinked(s: Store, m: Store, t: Id, from: Id, to: Id)
    requires Consistent(s) && t !in s && EdgesOf(m) == EdgesOf(s) && from in s && to in s
    ensures to != t && (t, to) !in EdgesOf(m) + {(from, t)}
  {
    Fresh(s, m, t, to);
  }

  lemma NewTransfer(d: Dax, l: Layout, s: Store, m: Store, s': Store, files: map<string, Id>, left: set<string>,
                    result: seq<Id>, t: Id, tr: Transfer, l': Layout, result': seq<Id>)
    requires left <= files.Keys && Duplicating(d, l, s, files, left) && Listed(l, result)
    requires t !in s && Wanted(d, l, tr) && tr !in l.origin.Values
    requires m == s[t := Activity.Activity(Comm, tr.file, FirstSize(AllUses(d.jobs), tr.file), [], {})] && SameActivities(m, s')
    requires EdgesOf(m) == EdgesOf(s) && EdgesOf(s') == EdgesOf(s) + {(tr.from, t)} + {(t, tr.to)}
    requires l' == WithTransfer(l, t, tr) && result' == result + [t]
    ensures Duplicating(d, l', s', files, left) && Listed(l', result')
    ensures l'.origin.Values == l.origin.Values + {tr}
  {
    hide Wanted;
    forall x: Id, y: Id ensures Succ(s', x, y) <==> Succ(s, x, y) || (x == tr.from && y == t) || (x == t && y == tr.to) {
      EdgeIsSucc(s, x, y);
      EdgeIsSucc(s', x, y);
    }
    TransferMade(d, l, s, s', files, left, t, tr);
    NewListed(d, l, s, files, left, result, t, tr);
  }

  lemma NewListed(d: Dax, l: Layout, s: Store, files: map<string, Id>, left: set<string>, result: seq<Id>, t: Id, tr: Transfer)
    requires left <= files.Keys && Duplicating(d, l, s, files, left) && Listed(l, result) && t !in s
    ensures Listed(WithTransfer(l, t, tr), result + [t])
    ensures WithTransfer(l, t, tr).origin.Values == l.origin.Values + {tr}
  {
    assert t !in l.origin && t !in result;
    var o := WithTransfer(l, t, tr).origin;
    forall v | v in l.origin.Values ensures v in o.Values {
      var u :| u in l.origin && l.origin[u] == v;
      assert u in o && o[u] == v;
    }
    assert t in o;
  }

  lemma ChildStarts(d: Dax, c: Child)
    ensures WithChild(d, c, 0) == AddChild(d, c.ref) && ParentsFit(d, c, 0) && ParentCalls(c.parents[..0]) == []
  {
  }

  lemma ChildGrows(d: Dax, c: Child, k: nat)
    requires k < |c.parents|
    ensures var w := WithChild(d, c, k);
            && w.jobs == d.jobs && w.children != [] && w.children[|w.children| - 1].ref == c.ref
            && AddParent(w, c.parents[k]) == WithChild(d, c, k + 1) && WithChild(d, c, k + 1).jobs == d.jobs
            && (Lookup(d.jobs, c.ref) >= 0 ==>
                 (ParentFits(d, c, k) <==> Lookup(d.jobs, c.parents[k]) >= 0 && Lookup(d.jobs, c.parents[k]) != Lookup(d.jobs, c.ref)
                                           && !Control(w, Lookup(d.jobs, c.parents[k]), Lookup(d.jobs, c.ref))))
    ensures ParentsFit(d, c, k + 1) <==> ParentsFit(d, c, k) && ParentFits(d, c, k)
    ensures !ParentFits(d, c, k) ==> !ParentsFit(d, c, |c.parents|)
    ensures ParentCalls(c.parents[..k + 1]) == ParentCalls(c.parents[..k]) + [OnParent(c.parents[k])]
  {
    hide Lookup, Control;
    assert c.parents[..k + 1] == c.parents[..k] + [c.parents[k]];
  }

  lemma ChildDone(d: Dax, c: Child)
    ensures WithChild(d, c, |c.parents|) == d.(children := d.children + [c])
  {
    assert c.parents[..|c.parents|] == c.parents;
  }

  lemma NoCalls()
    ensures JobsCalls([]) == [] && ChildrenCalls([]) == []
  {
  }

  lemma JobsCallsNext(jobs: seq<Job>, i: nat)
    requires i < |jobs|
    ensures JobsCalls(jobs[..i + 1]) == JobsCalls(jobs[..i]) + JobCalls(jobs[i])
  {
    hide JobCalls;
    assert jobs[..i + 1][..i] == jobs[..i];
  }

  lemma ChildrenCallsNext(children: seq<Child>, i: nat)
    requires i < |children|
    ensures ChildrenCalls(children[..i + 1]) == ChildrenCalls(children[..i]) + ChildCalls(children[i])
  {
    hide ChildCalls;
    assert children[..i + 1][..i] == children[..i];
  }

  lemma NoChildren(jobs: seq<Job>)
    ensures FineChildren(jobs, [])
  {
  }

  lemma ChildReadable(d: Dax, c: Child)
    requires FineChildren(d.jobs, d.children)
    ensures FineChildren(d.jobs, d.children + [c]) <==> Lookup(d.jobs, c.ref) >= 0 && ParentsFit(d, c, |c.parents|)
  {
    if Lookup(d.jobs, c.ref) >= 0 {
      AllFit(d, c);
    } else {
      assert c in d.children + [c];
    }
  }

  lemma UseIsNew(d: Dax, uses: seq<Use>, k: nat)
    requires d.jobs != [] && k < |uses| && d.jobs[|d.jobs| - 1].uses == uses[..k] && UsesOnce(uses[..k])
    ensures Declared(d, UseEdge(d, uses[k]).0, UseEdge(d, uses[k]).1) <==> !UsesOnce(uses[..k + 1])
  {
    var u, v := uses[k], uses[..k + 1];
    UseDeclared(d, u);
    hide Declared;
    if Declared(d, UseEdge(d, u).0, UseEdge(d, u).1) {
      var w :| w in uses[..k] && w.file == u.file && w.input == u.input;
      var i :| 0 <= i < k && uses[i] == w;
      assert v[i] == w && v[k] == u;
    }
    if !UsesOnce(v) {
      var i, j :| 0 <= i < j < |v| && v[i].file == v[j].file && v[i].input == v[j].input;
      assert j == k by { assert v[..k] == uses[..k]; }
      assert v[i] in uses[..k];
    }
  }

  lemma UseDeclared(d: Dax, u: Use)
    requires d.jobs != []
    ensures Declared(d, UseEdge(d, u).0, UseEdge(d, u).1) <==>
            exists w :: w in d.jobs[|d.jobs| - 1].uses && w.file == u.file && w.input == u.input
  {
  }

  lemma NothingDeclared()
    ensures DeclaredEdges(Dax([], [])) == {}
  {
    var d := Dax([], []);
    forall e | e in DeclaredEdges(d) ensures Declared(d, e.0, e.1) { assert e == (e.0, e.1); }
  }

  lemma JobKnown(d: Dax, s: Store, result: seq<Id>, jobs: map<string, Id>, files: map<string, Id>, root: Id, end: Id, ref: string)
    requires Represents(d, s, result, jobs, files, root, end)
    ensures |result| == 1 + |d.jobs|
    ensures ref in jobs <==> Lookup(d.jobs, ref) >= 0
    ensures ref in jobs ==> jobs[ref] == result[1 + Lookup(d.jobs, ref)] && jobs[ref] in s
  {
    hide LinksStand, FilesStand;
    IndexMeaning(d.jobs, result, ref);
  }

  /** Before a parent is linked: it is, exactly when the link is already declared. */
  lemma ParentReady(d: Dax, s: Store, result: seq<Id>, jobs: map<string, Id>, files: map<string, Id>, root: Id, end: Id,
                    i: nat, j: nat)
    requires Represents(d, s, result, jobs, files, root, end) && i < |d.jobs| && j < |d.jobs|
    ensures |result| == 1 + |d.jobs|
    ensures result[1 + i] in s && result[1 + j] in s
    ensures i == j <==> result[1 + i] == result[1 + j]
    ensures Control(d, i, j) <==> Succ(s, result[1 + i], result[1 + j])
  {
    hide LinksStand, FilesStand, Control;
    LinkedIffDeclared(d, s, result, files, root, end, JobNode(i), JobNode(j));
  }

  /** Once the file of a use exists, its link exists exactly when it is already declared. */
  lemma FileReady(d: Dax, s: Store, m: Store, result: seq<Id>, jobs: map<string, Id>, files: map<string, Id>, files': map<string, Id>,
                  root: Id, end: Id, u: Use)
    requires Represents(d, s, result, jobs, files, root, end) && d.jobs != [] && Consistent(s)
    requires FileThere(s, m, files, files', u)
    ensures |result| == 1 + |d.jobs|
    ensures var job, e := result[|result| - 1], UseEdge(d, u);
            && files'[u.file] in m && job in m && files'[u.file] != job
            && (Declared(d, e.0, e.1) <==> if u.input then Succ(m, files'[u.file], job) else Succ(m, job, files'[u.file]))
  {
    hide LinksStand;
    var e := UseEdge(d, u);
    var job := result[|result| - 1];
    assert job in s by { assert |result| >= 2; }
    if u.file in files {
      LinkedIffDeclared(d, s, result, files, root, end, e.0, e.1);
    } else {
      if Declared(d, e.0, e.1) { DeclaredEnds(d, e.0, e.1); assert false; }
      AddIsolated(s, files'[u.file], m[files'[u.file]]);
      assert Succ(s, job, files'[u.file]) <==> Pred(s, job, files'[u.file]);
    }
  }
}
