/** Invariants of the two passes that follow the reading of a DAX document: file duplication and anchoring. */
module DaxExpansion {
  import opened Common
  import opened Graphs
  import opened Activities
  import opened DaxGraph
  import opened TransferNames
  import opened DaxReader

  // ----- File duplication -----

  predicate FileLink(d: Dax, l: Layout, files: map<string, Id>, f: string, x: Id, y: Id)
    requires f in files
  {
    exists i :: 0 <= i < |d.jobs| && i < |l.job| &&
                ((x == l.job[i] && y == files[f] && Writes(d.jobs[i], f)) ||
                 (x == files[f] && y == l.job[i] && Reads(d.jobs[i], f)))
  }

  ghost predicate FileLinks(d: Dax, l: Layout, files: map<string, Id>, left: set<string>, x: Id, y: Id)
    requires left <= files.Keys
  {
    exists f :: f in left && FileLink(d, l, files, f, x, y)
  }

  /** The activities of the layout and the files left to duplicate, with nothing else around. */
  ghost predicate Stocked(d: Dax, l: Layout, s: Store, files: map<string, Id>, left: set<string>)
    requires left <= files.Keys
  {
    && Separate(d, l)
    && l.root in s && s[l.root].kind == Exec && s[l.root].name == "root" && s[l.root].amount == 0.0
    && l.end in s && s[l.end].kind == Exec && s[l.end].name == "end" && s[l.end].amount == 0.0
    && (forall i :: 0 <= i < |l.job| ==>
          l.job[i] in s && s[l.job[i]].kind == Exec && s[l.job[i]].name == JobName(d.jobs[i]) && s[l.job[i]].amount == JobAmount(d.jobs[i]))
    && (forall f :: f in left ==>
          && files[f] in s && files[f] != l.root && files[f] != l.end && files[f] !in l.job && files[f] !in l.origin
          && s[files[f]].kind == Comm && s[files[f]].name == f && s[files[f]].amount == FirstSize(AllUses(d.jobs), f))
    && (forall f, g :: f in left && g in left && files[f] == files[g] ==> f == g)
    && (forall x :: x in s ==> x == l.root || x == l.end || x in l.job || x in l.origin || exists f :: f in left && files[f] == x)
  }

  /** Transfers made so far: wanted, all different, named after their file and of the first size given for it. */
  ghost predicate Made(d: Dax, l: Layout, s: Store) {
    && (forall t :: t in l.origin ==>
          && t in s && s[t].kind == Comm && s[t].amount == FirstSize(AllUses(d.jobs), l.origin[t].file)
          && Wanted(d, l, l.origin[t]))
    && (forall t, u :: t in l.origin && u in l.origin && l.origin[t] == l.origin[u] ==> t == u)
  }

  ghost predicate NamedAfterFile(l: Layout, s: Store) {
    forall t :: t in l.origin && t in s ==> s[t].name == l.origin[t].file
  }

  ghost predicate Duplicating(d: Dax, l: Layout, s: Store, files: map<string, Id>, left: set<string>)
    requires left <= files.Keys
  {
    && Stocked(d, l, s, files, left) && Made(d, l, s) && NamedAfterFile(l, s)
    && forall x, y :: Succ(s, x, y) <==> Core(d, l, x, y) || FileLinks(d, l, files, left, x, y)
  }

  /** All the transfers of the files already duplicated. */
  ghost predicate DoneFiles(d: Dax, l: Layout, left: set<string>) {
    && (forall t :: t in l.origin ==> l.origin[t].file !in left)
    && (forall tr :: Wanted(d, l, tr) && tr.file !in left ==> tr in l.origin.Values)
  }

  function WithTransfer(l: Layout, t: Id, tr: Transfer): Layout { l.(origin := l.origin[t := tr]) }

  lemma CoreGrows(d: Dax, l: Layout, t: Id, tr: Transfer, x: Id, y: Id)
    requires t !in l.origin
    ensures Core(d, WithTransfer(l, t, tr), x, y) <==>
            Core(d, l, x, y) || (x == tr.from && y == t) || (x == t && y == tr.to)
  {
  }

  /** Creating one wanted transfer and linking it. */
  lemma TransferMade(d: Dax, l: Layout, s: Store, s': Store, files: map<string, Id>, left: set<string>, t: Id, tr: Transfer)
    requires left <= files.Keys && Duplicating(d, l, s, files, left)
    requires t !in s && Wanted(d, l, tr) && tr !in l.origin.Values
    requires s'.Keys == s.Keys + {t} && Retains(s, s')
    requires s'[t].kind == Comm && s'[t].name == tr.file && s'[t].amount == FirstSize(AllUses(d.jobs), tr.file)
    requires forall x, y :: Succ(s', x, y) <==> Succ(s, x, y) || (x == tr.from && y == t) || (x == t && y == tr.to)
    ensures Duplicating(d, WithTransfer(l, t, tr), s', files, left)
  {
    var l' := WithTransfer(l, t, tr);
    StockGrows(d, l, s, s', files, left, t, tr);
    MadeGrows(d, l, s, s', t, tr);
    assert NamedAfterFile(l', s');
    forall x, y ensures Succ(s', x, y) <==> Core(d, l', x, y) || FileLinks(d, l', files, left, x, y) {
      CoreGrows(d, l, t, tr, x, y);
      FileLinksSame(d, l, l', files, left, x, y);
    }
  }

  lemma FileLinksSame(d: Dax, l: Layout, l': Layout, files: map<string, Id>, left: set<string>, x: Id, y: Id)
    requires left <= files.Keys && l'.job == l.job
    ensures FileLinks(d, l', files, left, x, y) <==> FileLinks(d, l, files, left, x, y)
  {
    forall f | f in left ensures FileLink(d, l', files, f, x, y) <==> FileLink(d, l, files, f, x, y) { }
  }

  lemma StockGrows(d: Dax, l: Layout, s: Store, s': Store, files: map<string, Id>, left: set<string>, t: Id, tr: Transfer)
    requires left <= files.Keys && Stocked(d, l, s, files, left)
    requires t !in s && s'.Keys == s.Keys + {t} && Retains(s, s')
    ensures Stocked(d, WithTransfer(l, t, tr), s', files, left)
  {
  }

  lemma MadeGrows(d: Dax, l: Layout, s: Store, s': Store, t: Id, tr: Transfer)
    requires Made(d, l, s) && t !in s && Wanted(d, l, tr) && tr !in l.origin.Values
    requires s'.Keys == s.Keys + {t} && Retains(s, s')
    requires s'[t].kind == Comm && s'[t].amount == FirstSize(AllUses(d.jobs), tr.file)
    ensures Made(d, WithTransfer(l, t, tr), s')
  {
    var l' := WithTransfer(l, t, tr);
    forall u | u in l'.origin ensures Wanted(d, l', l'.origin[u]) {
      assert Wanted(d, l, l'.origin[u]);
    }
    forall u | u in l.origin ensures l.origin[u] != tr {
      assert l.origin[u] in l.origin.Values;
    }
  }

  /** The links of a file left to duplicate are its uses. */
  lemma FileEnds(d: Dax, l: Layout, s: Store, files: map<string, Id>, left: set<string>, f: string, x: Id)
    requires left <= files.Keys && Duplicating(d, l, s, files, left) && f in left && Consistent(s)
    ensures x in s[files[f]].dependencies <==> exists i :: 0 <= i < |d.jobs| && Writes(d.jobs[i], f) && l.job[i] == x
    ensures x in s[files[f]].successors <==> exists i :: 0 <= i < |d.jobs| && Reads(d.jobs[i], f) && l.job[i] == x
  {
    var a := files[f];
    CoreMissesFile(d, l, s, files, left, f, x);
    assert Pred(s, x, a) <==> Succ(s, x, a);
    FileOwnLinks(d, l, s, files, left, f, x);
    assert Succ(s, a, x) <==> x in s[a].successors;
  }

  lemma CoreMissesFile(d: Dax, l: Layout, s: Store, files: map<string, Id>, left: set<string>, f: string, x: Id)
    requires left <= files.Keys && Stocked(d, l, s, files, left) && Made(d, l, s) && f in left
    ensures !Core(d, l, x, files[f]) && !Core(d, l, files[f], x)
  {
    forall t | t in l.origin ensures l.origin[t].from != files[f] && l.origin[t].to != files[f] {
      assert Wanted(d, l, l.origin[t]);
    }
  }

  lemma FileOwnLinks(d: Dax, l: Layout, s: Store, files: map<string, Id>, left: set<string>, f: string, x: Id)
    requires left <= files.Keys && Stocked(d, l, s, files, left) && f in left
    ensures FileLinks(d, l, files, left, x, files[f]) <==>
            exists i :: 0 <= i < |d.jobs| && Writes(d.jobs[i], f) && l.job[i] == x
    ensures FileLinks(d, l, files, left, files[f], x) <==>
            exists i :: 0 <= i < |d.jobs| && Reads(d.jobs[i], f) && l.job[i] == x
  {
    if FileLinks(d, l, files, left, x, files[f]) {
      var g :| g in left && FileLink(d, l, files, g, x, files[f]);
      assert g == f;
    }
    if FileLinks(d, l, files, left, files[f], x) {
      var g :| g in left && FileLink(d, l, files, g, files[f], x);
      assert g == f;
    }
    if i :| 0 <= i < |d.jobs| && Writes(d.jobs[i], f) && l.job[i] == x {
      assert FileLink(d, l, files, f, x, files[f]);
    }
    if i :| 0 <= i < |d.jobs| && Reads(d.jobs[i], f) && l.job[i] == x {
      assert FileLink(d, l, files, f, files[f], x);
    }
  }

  /** Freeing a duplicated file. */
  lemma FileFreed(d: Dax, l: Layout, s: Store, s': Store, files: map<string, Id>, left: set<string>, f: string)
    requires left <= files.Keys && f in left && Duplicating(d, l, s, files, left)
    requires s'.Keys == s.Keys - {files[f]} && SameActivities(s - {files[f]}, s')
    requires forall x, y :: Succ(s', x, y) <==> Succ(s, x, y) && x != files[f] && y != files[f]
    ensures Duplicating(d, l, s', files, left - {f})
  {
    forall x, y ensures Succ(s', x, y) <==> Core(d, l, x, y) || FileLinks(d, l, files, left - {f}, x, y) {
      CoreMissesFile(d, l, s, files, left, f, x);
      CoreMissesFile(d, l, s, files, left, f, y);
      FileLinksShrink(d, l, s, files, left, f, x, y);
    }
    StockShrinks(d, l, s, s', files, left, f);
  }

  lemma StockShrinks(d: Dax, l: Layout, s: Store, s': Store, files: map<string, Id>, left: set<string>, f: string)
    requires left <= files.Keys && f in left && Stocked(d, l, s, files, left)
    requires s'.Keys == s.Keys - {files[f]} && SameActivities(s - {files[f]}, s')
    ensures Stocked(d, l, s', files, left - {f})
  {
    forall x | x in s' ensures x == l.root || x == l.end || x in l.job || x in l.origin || exists g :: g in left - {f} && files[g] == x {
      if g :| g in left && files[g] == x { assert g in left - {f}; }
    }
  }

  lemma FileLinksShrink(d: Dax, l: Layout, s: Store, files: map<string, Id>, left: set<string>, f: string, x: Id, y: Id)
    requires left <= files.Keys && f in left && Stocked(d, l, s, files, left)
    ensures FileLinks(d, l, files, left - {f}, x, y) <==>
            FileLinks(d, l, files, left, x, y) && x != files[f] && y != files[f]
  {
    if FileLinks(d, l, files, left, x, y) {
      var g :| g in left && FileLink(d, l, files, g, x, y);
      if g != f { assert g in left - {f}; }
    }
  }

  // ----- From the document read to the duplication of its files -----

  lemma StartDuplicating(d: Dax, s: Store, result: seq<Id>, jobs: map<string, Id>, files: map<string, Id>,
                         root: Id, end: Id, l: Layout)
    requires Represents(d, s, result, jobs, files, root, end) && |result| == 1 + |d.jobs|
    requires l == Layout(result[1..], root, end, map[])
    ensures files.Keys == FileNames(d)
    ensures Duplicating(d, l, s, files, files.Keys) && DoneFiles(d, l, files.Keys)
  {
    hide LinksStand, Stands, Stocked, FileLinks, Core, IsSource, IsTarget;
    StartStock(d, s, result, files, root, end, l);
    forall x, y ensures Succ(s, x, y) <==> Core(d, l, x, y) || FileLinks(d, l, files, files.Keys, x, y) {
      LinksMeaning(d, s, result, files, x, y);
      StandsAs(d, s, result, files, root, end, l, x, y);
    }
  }

  lemma StartStock(d: Dax, s: Store, result: seq<Id>, files: map<string, Id>, root: Id, end: Id, l: Layout)
    requires ExecutionsStand(d, s, result, root, end) && FilesStand(d, s, result, files, end)
    requires forall x :: x in s ==> x == end || x in result || x in files.Values
    requires l == Layout(result[1..], root, end, map[])
    ensures Stocked(d, l, s, files, files.Keys)
  {
    hide ExecutionsStand, FilesStand, Separate, NoRepeats, AllUses, FirstSize, JobName, JobAmount;
    StartJobs(d, s, result, root, end, l);
    StartFiles(d, s, result, files, root, end, l);
    StartAll(s, result, files, root, end, l);
  }

  lemma StartFiles(d: Dax, s: Store, result: seq<Id>, files: map<string, Id>, root: Id, end: Id, l: Layout)
    requires FilesStand(d, s, result, files, end) && result == [root] + l.job && l.end == end && l.root == root
    ensures forall f :: f in files ==>
              && files[f] in s && files[f] != root && files[f] != end && files[f] !in l.job
              && s[files[f]].kind == Comm && s[files[f]].name == f && s[files[f]].amount == FirstSize(AllUses(d.jobs), f)
    ensures forall f, g :: f in files && g in files && files[f] == files[g] ==> f == g
  {
    hide AllUses, FirstSize;
    forall f | f in files ensures files[f] != root && files[f] !in l.job {
      assert root in result && forall x: Id :: x in l.job ==> x in result;
    }
  }

  lemma StartAll(s: Store, result: seq<Id>, files: map<string, Id>, root: Id, end: Id, l: Layout)
    requires result == [root] + l.job
    requires forall x :: x in s ==> x == end || x in result || x in files.Values
    ensures forall x :: x in s ==> x == root || x == end || x in l.job || exists f :: f in files && files[f] == x
  {
    forall x | x in s && x in files.Values ensures exists f :: f in files && files[f] == x {
      var f :| f in files && files[f] == x;
    }
  }

  lemma StartJobs(d: Dax, s: Store, result: seq<Id>, root: Id, end: Id, l: Layout)
    requires ExecutionsStand(d, s, result, root, end) && l == Layout(result[1..], root, end, map[])
    ensures Separate(d, l) && result == [root] + l.job
    ensures root in s && s[root].kind == Exec && s[root].name == "root" && s[root].amount == 0.0
    ensures end in s && s[end].kind == Exec && s[end].name == "end" && s[end].amount == 0.0
    ensures forall i :: 0 <= i < |l.job| ==>
              l.job[i] in s && s[l.job[i]].kind == Exec && s[l.job[i]].name == JobName(d.jobs[i]) && s[l.job[i]].amount == JobAmount(d.jobs[i])
  {
    hide JobName, JobAmount;
    forall i | 0 <= i < |l.job| ensures l.job[i] == result[i + 1] && l.job[i] != root { }
    assert result == [root] + l.job;
  }

  lemma StandsAs(d: Dax, s: Store, result: seq<Id>, files: map<string, Id>, root: Id, end: Id, l: Layout, x: Id, y: Id)
    requires ExecutionsStand(d, s, result, root, end) && FilesStand(d, s, result, files, end)
    requires l == Layout(result[1..], root, end, map[])
    ensures Stands(d, result, files, x, y) <==> Core(d, l, x, y) || FileLinks(d, l, files, files.Keys, x, y)
  {
    hide Control, Writes, Reads;
    if Stands(d, result, files, x, y) {
      var n: Node, m: Node :| Declared(d, n, m) && At(result, files, n) == x && At(result, files, m) == y;
      StandsThere(d, result, files, l, n, m);
    }
    if ControlLink(d, l, x, y) {
      var i: nat, j: nat :| i < |l.job| && j < |l.job| && l.job[i] == x && l.job[j] == y && Control(d, i, j);
      assert Declared(d, JobNode(i), JobNode(j));
    }
    if FileLinks(d, l, files, files.Keys, x, y) {
      var f :| f in files && FileLink(d, l, files, f, x, y);
      FileLinkStands(d, result, files, l, f, x, y);
    }
  }

  lemma StandsThere(d: Dax, result: seq<Id>, files: map<string, Id>, l: Layout, n: Node, m: Node)
    requires |result| == 1 + |d.jobs| && l.job == result[1..] && files.Keys == FileNames(d) && Declared(d, n, m)
    ensures var x, y := At(result, files, n), At(result, files, m);
            ControlLink(d, l, x, y) || FileLinks(d, l, files, files.Keys, x, y)
  {
    hide Control, Writes, Reads;
    DeclaredEnds(d, n, m);
    var x, y := At(result, files, n), At(result, files, m);
    match (n, m)
    case (JobNode(i), FileNode(f)) => assert l.job[i] == x && FileLink(d, l, files, f, x, y);
    case (FileNode(f), JobNode(i)) => assert l.job[i] == y && FileLink(d, l, files, f, x, y);
    case (JobNode(i), JobNode(j)) => assert l.job[i] == x && l.job[j] == y;
  }

  lemma FileLinkStands(d: Dax, result: seq<Id>, files: map<string, Id>, l: Layout, f: string, x: Id, y: Id)
    requires |result| == 1 + |d.jobs| && l.job == result[1..] && f in files && FileLink(d, l, files, f, x, y)
    ensures Stands(d, result, files, x, y)
  {
    hide Control, Writes, Reads;
    var i: nat :| i < |d.jobs| && i < |l.job| && ((x == l.job[i] && y == files[f] && Writes(d.jobs[i], f)) ||
                                                   (x == files[f] && y == l.job[i] && Reads(d.jobs[i], f)));
    assert At(result, files, JobNode(i)) == l.job[i];
    if x == l.job[i] && y == files[f] && Writes(d.jobs[i], f) {
      assert Declared(d, JobNode(i), FileNode(f));
    } else {
      assert Declared(d, FileNode(f), JobNode(i));
    }
  }

  // ----- Duplicating one file -----

  /** `D` and `S` are the producers and the consumers of the file. */
  ghost predicate UsedBy(d: Dax, l: Layout, f: string, D: set<Id>, S: seq<Id>) {
    && NoRepeats(S)
    && (forall x :: IsSource(d, l, f, x) <==> if D == {} then x == l.root else x in D)
    && (forall x :: IsTarget(d, l, f, x) <==> if S == [] then x == l.end else x in S)
  }

  lemma FileUsedBy(d: Dax, l: Layout, s: Store, files: map<string, Id>, left: set<string>, f: string)
    requires left <= files.Keys && Duplicating(d, l, s, files, left) && f in left && Consistent(s)
    ensures files[f] in s && UsedBy(d, l, f, s[files[f]].dependencies, s[files[f]].successors)
  {
    var D, S := s[files[f]].dependencies, s[files[f]].successors;
    forall x ensures x in D <==> exists i :: 0 <= i < |d.jobs| && Writes(d.jobs[i], f) && l.job[i] == x {
      FileEnds(d, l, s, files, left, f, x);
    }
    forall x ensures x in S <==> exists i :: 0 <= i < |d.jobs| && Reads(d.jobs[i], f) && l.job[i] == x {
      FileEnds(d, l, s, files, left, f, x);
    }
    SourcesAre(d, l, f, D);
    TargetsAre(d, l, f, S);
  }

  lemma SourcesAre(d: Dax, l: Layout, f: string, D: set<Id>)
    requires |l.job| == |d.jobs|
    requires forall x :: x in D <==> exists i :: 0 <= i < |d.jobs| && Writes(d.jobs[i], f) && l.job[i] == x
    ensures forall x :: IsSource(d, l, f, x) <==> if D == {} then x == l.root else x in D
  {
    if i :| 0 <= i < |d.jobs| && Writes(d.jobs[i], f) { assert l.job[i] in D; }
    if D != {} { var x :| x in D; assert Produced(d, f); }
  }

  lemma TargetsAre(d: Dax, l: Layout, f: string, S: seq<Id>)
    requires |l.job| == |d.jobs|
    requires forall x :: x in S <==> exists i :: 0 <= i < |d.jobs| && Reads(d.jobs[i], f) && l.job[i] == x
    ensures forall x :: IsTarget(d, l, f, x) <==> if S == [] then x == l.end else x in S
  {
    if i :| 0 <= i < |d.jobs| && Reads(d.jobs[i], f) { assert l.job[i] in S; }
    if S != [] { assert S[0] in S; assert Consumed(d, f); }
  }

  /** `made` holds the transfers of the file that exist already. */
  ghost predicate Partly(d: Dax, l0: Layout, l: Layout, f: string, made: set<(Id, Id)>) {
    && l == l0.(origin := l.origin)
    && forall tr :: tr in l.origin.Values <==> tr in l0.origin.Values || (tr.file == f && (tr.from, tr.to) in made)
  }

  ghost predicate Unstarted(l: Layout, f: string) { forall tr :: tr in l.origin.Values ==> tr.file != f }

  lemma FileIsUsed(d: Dax, f: string)
    requires f in FileNames(d)
    ensures Produced(d, f) || Consumed(d, f)
  {
    var u :| u in AllUses(d.jobs) && u.file == f;
    UsesOrigin(d.jobs, u);
    var i :| 0 <= i < |d.jobs| && u in d.jobs[i].uses;
    assert Writes(d.jobs[i], f) || Reads(d.jobs[i], f);
  }

  lemma SomeEnd(d: Dax, l: Layout, f: string, D: set<Id>, S: seq<Id>)
    requires f in FileNames(d) && Separate(d, l) && UsedBy(d, l, f, D, S)
    ensures D != {} || S != []
  {
    FileIsUsed(d, f);
    if Produced(d, f) {
      var i :| 0 <= i < |d.jobs| && Writes(d.jobs[i], f);
      assert IsSource(d, l, f, l.job[i]);
    } else {
      var i :| 0 <= i < |d.jobs| && Reads(d.jobs[i], f);
      assert IsTarget(d, l, f, l.job[i]);
    }
  }

  lemma WantedNew(d: Dax, l0: Layout, l: Layout, f: string, made: set<(Id, Id)>, x: Id, y: Id)
    requires Partly(d, l0, l, f, made) && Unstarted(l0, f) && (x, y) !in made
    requires f in FileNames(d) && IsSource(d, l0, f, x) && IsTarget(d, l0, f, y)
    ensures Wanted(d, l, Transfer(x, f, y)) && Transfer(x, f, y) !in l.origin.Values
  {
  }

  lemma PartlyMore(d: Dax, l0: Layout, l: Layout, l': Layout, f: string, made: set<(Id, Id)>, x: Id, y: Id)
    requires Partly(d, l0, l, f, made) && l' == l.(origin := l'.origin)
    requires l'.origin.Values == l.origin.Values + {Transfer(x, f, y)}
    ensures Partly(d, l0, l', f, made + {(x, y)})
  {
  }

  lemma FileDone(d: Dax, l0: Layout, l: Layout, left: set<string>, f: string, D: set<Id>, S: seq<Id>, made: set<(Id, Id)>)
    requires Partly(d, l0, l, f, made) && UsedBy(d, l0, f, D, S) && DoneFiles(d, l0, left) && f in left
    requires forall x, y :: (x, y) in made <==>
               (if D == {} then x == l0.root else x in D) && (if S == [] then y == l0.end else y in S)
    ensures DoneFiles(d, l, left - {f})
  {
    forall t | t in l.origin ensures l.origin[t].file !in left - {f} {
      assert l.origin[t] in l.origin.Values;
      if l.origin[t].file != f {
        assert l.origin[t] in l0.origin.Values;
        var u :| u in l0.origin && l0.origin[u] == l.origin[t];
      }
    }
    forall tr | Wanted(d, l, tr) && tr.file !in left - {f} ensures tr in l.origin.Values {
      assert Wanted(d, l0, tr);
      if tr.file == f { assert (tr.from, tr.to) in made; }
    }
  }

  // ----- Anchoring -----

  /** The links while executions are anchored one after the other: those of `done` are. */
  ghost predicate Anchoring(d: Dax, l: Layout, s: Store, done: set<Id>) {
    forall x, y :: Succ(s, x, y) <==> Core(d, l, x, y) || (Anchor(d, l, x, y) && (x in done || y in done))
  }

  /** Root and end take no time. */
  ghost function ExecAmount(d: Dax, l: Layout, x: Id): real
    requires |l.job| == |d.jobs|
  {
    if x in l.job then JobAmount(d.jobs[JobOf(l, x)]) else 0.0
  }

  ghost predicate Complete(d: Dax, l: Layout, s: Store) {
    && Separate(d, l) && TransfersMatch(d, l) && Consistent(s)
    && s.Keys == {l.root, l.end} + Executions(l) + l.origin.Keys
    && (forall x :: x in s ==> s[x].kind == if x in l.origin then Comm else Exec)
    && (forall t :: t in l.origin ==> s[t].amount == FirstSize(AllUses(d.jobs), l.origin[t].file))
    && (forall x :: x in s && x !in l.origin ==> s[x].name == ExecName(d, l, x) && s[x].amount == ExecAmount(d, l, x))
  }

  /** Executions keep their names; a transfer is renamed when its turn comes. */
  ghost predicate Renaming(d: Dax, l: Layout, s: Store, done: set<Id>)
    requires |l.job| == |d.jobs|
  {
    forall t :: t in l.origin && t in s ==>
      s[t].name == if t in done then TransferName(ExecName(d, l, l.origin[t].from), l.origin[t].file, ExecName(d, l, l.origin[t].to))
                   else l.origin[t].file
  }

  lemma DuplicationDone(d: Dax, l: Layout, s: Store, files: map<string, Id>)
    requires Consistent(s) && Duplicating(d, l, s, files, {}) && DoneFiles(d, l, {})
    ensures Complete(d, l, s) && Anchoring(d, l, s, {}) && Renaming(d, l, s, {})
  {
    hide Core, Consistent, Wanted, JobName, JobAmount, FirstSize, AllUses, NoRepeats, TransferName;
    forall x, y ensures !FileLinks(d, l, files, {}, x, y) { }
    forall x | x in s ensures x in {l.root, l.end} + Executions(l) + l.origin.Keys { }
    assert s.Keys == {l.root, l.end} + Executions(l) + l.origin.Keys;
  }

  /** An execution not yet anchored has only its core links. */
  lemma NotYetAnchored(d: Dax, l: Layout, s: Store, done: set<Id>, a: Id)
    requires a in s && Complete(d, l, s) && Anchoring(d, l, s, done) && a in l.job && a !in done && l.root !in done && l.end !in done
    ensures s[a].dependencies == {} <==> forall z :: !Core(d, l, z, a)
    ensures s[a].successors == [] <==> forall z :: !Core(d, l, a, z)
  {
    forall z ensures Pred(s, z, a) <==> Core(d, l, z, a) { assert Pred(s, z, a) <==> Succ(s, z, a); }
    forall z ensures Succ(s, a, z) <==> Core(d, l, a, z) { }
    if s[a].dependencies != {} { var z :| z in s[a].dependencies; assert Pred(s, z, a); }
    if s[a].successors != [] { assert Succ(s, a, s[a].successors[0]); }
  }

  /** A transfer has exactly the two links it was made for. */
  lemma TransferAlone(d: Dax, l: Layout, s: Store, done: set<Id>, t: Id)
    requires Complete(d, l, s) && Anchoring(d, l, s, done) && t in l.origin
    ensures s[t].dependencies == {l.origin[t].from} && s[t].successors == [l.origin[t].to]
    ensures l.origin[t].from in s && l.origin[t].from !in l.origin && l.origin[t].to in s && l.origin[t].to !in l.origin
  {
    var tr := l.origin[t];
    OriginEnds(d, l, t);
    forall z ensures Succ(s, z, t) <==> z == tr.from { OnlyLinks(d, l, t, z); }
    forall z ensures Succ(s, t, z) <==> z == tr.to { OnlyLinks(d, l, t, z); }
    forall z ensures z in s[t].dependencies <==> z in {tr.from} { assert Pred(s, z, t) <==> Succ(s, z, t); }
    assert Succ(s, t, tr.to);
    forall i | 0 <= i < |s[t].successors| ensures s[t].successors[i] == tr.to { assert Succ(s, t, s[t].successors[i]); }
    OneElement(s[t].successors, tr.to);
  }

  lemma OneElement(q: seq<Id>, v: Id)
    requires NoRepeats(q) && v in q && forall i :: 0 <= i < |q| ==> q[i] == v
    ensures q == [v]
  {
    var n := |q|;
    assert n == 1 by { assert n == 0 || q[0] == q[n - 1]; }
  }

  lemma OnlyLinks(d: Dax, l: Layout, t: Id, z: Id)
    requires Separate(d, l) && TransfersMatch(d, l) && t in l.origin
    ensures Core(d, l, z, t) <==> z == l.origin[t].from
    ensures Core(d, l, t, z) <==> z == l.origin[t].to
    ensures !Anchor(d, l, z, t) && !Anchor(d, l, t, z)
  {
    if z in l.origin { OriginEnds(d, l, z); }
  }

  lemma CompleteIsProper(d: Dax, l: Layout, s: Store, done: set<Id>)
    requires Complete(d, l, s) && Anchoring(d, l, s, done)
    ensures ProperTransfers(s)
  {
    forall c | c in s && s[c].kind == Comm ensures ProperTransfer(s, c) {
      TransferAlone(d, l, s, done, c);
    }
  }

  lemma AllAnchored(d: Dax, l: Layout, s: Store, done: set<Id>)
    requires Complete(d, l, s) && Anchoring(d, l, s, done) && Executions(l) <= done
    ensures Expanded(d, l, EdgesOf(s))
  {
    forall x: Id, y: Id ensures (x, y) in EdgesOf(s) <==> Core(d, l, x, y) || Anchor(d, l, x, y) { }
  }

  /** Anchoring one execution. */
  lemma ExecAnchored(d: Dax, l: Layout, s: Store, s': Store, done: set<Id>, a: Id)
    requires a in s && Complete(d, l, s) && Anchoring(d, l, s, done) && a in l.job && a !in done && l.root !in done && l.end !in done
    requires Consistent(s') && SameActivities(s, s')
    requires EdgesOf(s') == EdgesOf(s) + (if s[a].dependencies == {} then {(l.root, a)} else {})
                                       + (if s[a].successors == [] then {(a, l.end)} else {})
    ensures Complete(d, l, s') && Anchoring(d, l, s', done + {a})
  {
    hide Complete, Consistent, SameActivities, EdgesOf, Core, Separate, Anchor;
    EndsNoJobs(d, l, s);
    NotYetAnchored(d, l, s, done, a);
    CompleteStill(d, l, s, s');
    var noIn, noOut := s[a].dependencies == {}, s[a].successors == [];
    forall x: Id, y: Id
      ensures Succ(s', x, y) <==> Core(d, l, x, y) || (Anchor(d, l, x, y) && (x in done + {a} || y in done + {a}))
    {
      EdgeIsSucc(s, x, y);
      EdgeIsSucc(s', x, y);
      hide Succ;
      AnchorsNext(d, l, done, a, x, y, noIn, noOut);
    }
  }

  /** The anchors of one more execution are those it lacks. */
  lemma AnchorsNext(d: Dax, l: Layout, done: set<Id>, a: Id, x: Id, y: Id, noIn: bool, noOut: bool)
    requires a in l.job && a !in done && l.root !in done && l.end !in done && l.root !in l.job && l.end !in l.job
    requires (noIn <==> forall z :: !Core(d, l, z, a)) && (noOut <==> forall z :: !Core(d, l, a, z))
    ensures (Anchor(d, l, x, y) && (x in done + {a} || y in done + {a})) <==>
            (Anchor(d, l, x, y) && (x in done || y in done)) || (noIn && x == l.root && y == a) || (noOut && x == a && y == l.end)
  {
    hide Core;
  }

  lemma EndsNoJobs(d: Dax, l: Layout, s: Store)
    requires Complete(d, l, s)
    ensures l.root !in l.job && l.end !in l.job && forall x :: x in l.job ==> x in s
  {
  }

  lemma CompleteStill(d: Dax, l: Layout, s: Store, s': Store)
    requires Complete(d, l, s) && Consistent(s') && SameActivities(s, s')
    ensures Complete(d, l, s')
  {
    hide Consistent, TransfersMatch, Separate, ExecName, ExecAmount;
  }

  /** Renaming one transfer. */
  lemma TransferRenamed(d: Dax, l: Layout, s: Store, s': Store, done: set<Id>, seen: set<Id>, t: Id, name: string)
    requires Complete(d, l, s) && Anchoring(d, l, s, done) && Renaming(d, l, s, seen) && t in l.origin && t !in seen
    requires s' == s[t := s[t].(name := name)] && Consistent(s')
    requires name == TransferName(ExecName(d, l, l.origin[t].from), l.origin[t].file, ExecName(d, l, l.origin[t].to))
    ensures Complete(d, l, s') && Anchoring(d, l, s', done) && Renaming(d, l, s', seen + {t})
  {
    CompleteRenamed(d, l, s, s', t, name);
    hide Core, Anchor, Complete, ExecName, TransferName, Consistent;
    forall x, y ensures Succ(s', x, y) <==> Succ(s, x, y) { }
  }

  lemma CompleteRenamed(d: Dax, l: Layout, s: Store, s': Store, t: Id, name: string)
    requires Complete(d, l, s) && t in l.origin && s' == s[t := s[t].(name := name)] && Consistent(s')
    ensures Complete(d, l, s')
  {
    hide Consistent, TransfersMatch, Separate, ExecName, ExecAmount;
  }

  // ----- What is loaded, in terms of the document -----

  lemma {:induction false} FirstSizeIs(uses: seq<Use>, k: nat)
    requires k < |uses| && forall n :: 0 <= n < k ==> uses[n].file != uses[k].file
    ensures FirstSize(uses, uses[k].file) == uses[k].size
  {
    if k > 0 { FirstSizeIs(uses[1..], k - 1); }
  }

  /** Use `m` of job `i` is the first use of its file. */
  ghost predicate FirstUse(jobs: seq<Job>, i: nat, m: nat) {
    && i < |jobs| && m < |jobs[i].uses|
    && (forall n :: 0 <= n < m ==> jobs[i].uses[n].file != jobs[i].uses[m].file)
    && forall k, n :: 0 <= k < i && 0 <= n < |jobs[k].uses| ==> jobs[k].uses[n].file != jobs[i].uses[m].file
  }

  lemma {:induction false} UsePlace(jobs: seq<Job>, i: nat, m: nat) returns (p: nat)
    requires FirstUse(jobs, i, m)
    ensures p < |AllUses(jobs)| && AllUses(jobs)[p] == jobs[i].uses[m]
    ensures forall n :: 0 <= n < p ==> AllUses(jobs)[n].file != jobs[i].uses[m].file
  {
    var k := |jobs| - 1;
    if i < k {
      p := UsePlace(jobs[..k], i, m);
    } else {
      p := |AllUses(jobs[..k])| + m;
      forall n | 0 <= n < |AllUses(jobs[..k])| ensures AllUses(jobs)[n].file != jobs[i].uses[m].file {
        var u := AllUses(jobs[..k])[n];
        UsesOrigin(jobs[..k], u);
        var j :| 0 <= j < k && u in jobs[..k][j].uses;
        assert u in jobs[j].uses;
      }
    }
  }

  lemma FirstUseSize(jobs: seq<Job>, i: nat, m: nat)
    requires FirstUse(jobs, i, m)
    ensures FirstSize(AllUses(jobs), jobs[i].uses[m].file) == jobs[i].uses[m].size
  {
    var p := UsePlace(jobs, i, m);
    FirstSizeIs(AllUses(jobs), p);
  }

  /** Executions: the root, the end, and one per job, named after its id and name, with its runtime at 4.2 Gflop/s. */
  lemma ExecutionsAre(d: Dax, l: Layout, s: Store)
    requires Complete(d, l, s)
    ensures l.root in s && s[l.root] == s[l.root].(kind := Exec, name := "root", amount := 0.0)
    ensures l.end in s && s[l.end] == s[l.end].(kind := Exec, name := "end", amount := 0.0)
    ensures |l.job| == |d.jobs| && forall i :: 0 <= i < |d.jobs| ==>
              && l.job[i] in s && s[l.job[i]].kind == Exec && s[l.job[i]].name == d.jobs[i].id + "@" + d.jobs[i].name
              && s[l.job[i]].amount == d.jobs[i].runtime * 4200000000.0
  {
    forall i | 0 <= i < |d.jobs|
      ensures l.job[i] in s && ExecName(d, l, l.job[i]) == JobName(d.jobs[i]) && ExecAmount(d, l, l.job[i]) == JobAmount(d.jobs[i])
    {
      assert l.job[i] in l.job;
    }
  }

  /** Transfers: named after the executions they join, with the size of the first use of their file, between the two. */
  lemma TransfersAre(d: Dax, l: Layout, s: Store, E: set<(Id, Id)>, t: Id)
    requires Complete(d, l, s) && Renaming(d, l, s, s.Keys) && Expanded(d, l, E) && t in l.origin
    ensures var tr := l.origin[t];
            && t in s && tr.from in s && tr.to in s && s[t].kind == Comm
            && s[t].name == s[tr.from].name + "_" + tr.file + "_" + s[tr.to].name
            && (forall i: nat, m: nat :: FirstUse(d.jobs, i, m) && d.jobs[i].uses[m].file == tr.file ==> s[t].amount == d.jobs[i].uses[m].size)
            && (forall x: Id :: (x, t) in E <==> x == tr.from) && (forall y: Id :: (t, y) in E <==> y == tr.to)
  {
    hide Complete, Renaming, Expanded, FirstSize, AllUses;
    TransferLinks(d, l, E, t);
    TransferLabel(d, l, s, t);
    SizeOf(d.jobs, l.origin[t].file);
  }

  lemma SizeOf(jobs: seq<Job>, f: string)
    ensures forall i: nat, m: nat :: FirstUse(jobs, i, m) && jobs[i].uses[m].file == f ==> FirstSize(AllUses(jobs), f) == jobs[i].uses[m].size
  {
    hide FirstSize, AllUses;
    forall i: nat, m: nat | FirstUse(jobs, i, m) && jobs[i].uses[m].file == f
      ensures FirstSize(AllUses(jobs), f) == jobs[i].uses[m].size
    {
      FirstUseSize(jobs, i, m);
    }
  }

  lemma TransferLinks(d: Dax, l: Layout, E: set<(Id, Id)>, t: Id)
    requires Expanded(d, l, E) && t in l.origin
    ensures forall x: Id :: (x, t) in E <==> x == l.origin[t].from
    ensures forall y: Id :: (t, y) in E <==> y == l.origin[t].to
  {
    hide ControlLink, Separate, TransfersMatch;
    forall x: Id ensures (x, t) in E <==> x == l.origin[t].from {
      if (x, t) in E { LinkShape(d, l, E, x, t); } else { assert !Core(d, l, x, t); }
    }
    forall y: Id ensures (t, y) in E <==> y == l.origin[t].to {
      if (t, y) in E { LinkShape(d, l, E, t, y); } else { assert !Core(d, l, t, y); }
    }
  }

  lemma TransferLabel(d: Dax, l: Layout, s: Store, t: Id)
    requires Complete(d, l, s) && Renaming(d, l, s, s.Keys) && t in l.origin
    ensures var tr := l.origin[t];
            && t in s && tr.from in s && tr.to in s && s[t].kind == Comm && s[t].amount == FirstSize(AllUses(d.jobs), tr.file)
            && s[t].name == s[tr.from].name + "_" + tr.file + "_" + s[tr.to].name
  {
    OriginEnds(d, l, t);
    hide Consistent, TransfersMatch, FirstSize, AllUses, ExecName, ExecAmount;
  }

  /** A file goes from each job that writes it, or the root if there is none, to each job that reads it, or the end. */
  lemma FilesGo(d: Dax, l: Layout, f: string, from: Id, to: Id)
    requires Separate(d, l) && TransfersMatch(d, l)
    ensures Transfer(from, f, to) in l.origin.Values <==>
            && (exists i, u :: 0 <= i < |d.jobs| && u in d.jobs[i].uses && u.file == f)
            && (if exists i, u :: 0 <= i < |d.jobs| && u in d.jobs[i].uses && u.file == f && !u.input
                then exists i, u :: 0 <= i < |d.jobs| && u in d.jobs[i].uses && u.file == f && !u.input && l.job[i] == from
                else from == l.root)
            && (if exists i, u :: 0 <= i < |d.jobs| && u in d.jobs[i].uses && u.file == f && u.input
                then exists i, u :: 0 <= i < |d.jobs| && u in d.jobs[i].uses && u.file == f && u.input && l.job[i] == to
                else to == l.end)
  {
    var tr := Transfer(from, f, to);
    FileUsed(d, f);
    SourceIs(d, l, f, from);
    TargetIs(d, l, f, to);
    hide IsSource, IsTarget, FileNames;
    assert Wanted(d, l, tr) <==> tr in l.origin.Values by {
      if tr in l.origin.Values { var t :| t in l.origin && l.origin[t] == tr; }
    }
  }

  lemma FileUsed(d: Dax, f: string)
    ensures f in FileNames(d) <==> exists i, u :: 0 <= i < |d.jobs| && u in d.jobs[i].uses && u.file == f
  {
    if f in FileNames(d) {
      var u :| u in AllUses(d.jobs) && u.file == f;
      UsesOrigin(d.jobs, u);
    }
    if i, u :| 0 <= i < |d.jobs| && u in d.jobs[i].uses && u.file == f { UsesCollected(d.jobs, i, u); }
  }

  lemma SourceIs(d: Dax, l: Layout, f: string, x: Id)
    requires |l.job| == |d.jobs|
    ensures IsSource(d, l, f, x) <==>
            if exists i, u :: 0 <= i < |d.jobs| && u in d.jobs[i].uses && u.file == f && !u.input
            then exists i, u :: 0 <= i < |d.jobs| && u in d.jobs[i].uses && u.file == f && !u.input && l.job[i] == x
            else x == l.root
  {
  }

  lemma TargetIs(d: Dax, l: Layout, f: string, x: Id)
    requires |l.job| == |d.jobs|
    ensures IsTarget(d, l, f, x) <==>
            if exists i, u :: 0 <= i < |d.jobs| && u in d.jobs[i].uses && u.file == f && u.input
            then exists i, u :: 0 <= i < |d.jobs| && u in d.jobs[i].uses && u.file == f && u.input && l.job[i] == x
            else x == l.end
  {
  }

  /** Every parent that is listed precedes its child; an id means the first job that has it. */
  lemma ParentsFirst(d: Dax, l: Layout, E: set<(Id, Id)>, c: Child, p: string, i: nat, j: nat)
    requires Expanded(d, l, E) && c in d.children && p in c.parents && i < |d.jobs| && j < |d.jobs|
    requires d.jobs[i].id == p && (forall k :: 0 <= k < i ==> d.jobs[k].id != p)
    requires d.jobs[j].id == c.ref && (forall k :: 0 <= k < j ==> d.jobs[k].id != c.ref)
    ensures (l.job[i], l.job[j]) in E
  {
    assert Lookup(d.jobs, p) == i && Lookup(d.jobs, c.ref) == j;
    assert Orders(d.jobs, c, i, j);
    assert Control(d, i, j);
    assert ControlLink(d, l, l.job[i], l.job[j]);
  }
}
