/** How many transfers a file is expanded into, and what a generated name tells of its parts. */
module TransferNames {
  import opened Activities
  import opened DaxGraph

  // ----- Counting -----

  lemma {:induction false} InjectiveSize<A, B>(m: map<A, B>)
    requires forall x, y :: x in m && y in m && m[x] == m[y] ==> x == y
    ensures |m.Values| == |m|
  {
    if m != map[] {
      var x :| x in m;
      var n := m - {x};
      InjectiveSize(n);
      assert m.Values == n.Values + {m[x]};
      assert m.Keys == n.Keys + {x};
    } else {
      assert m.Values == {};
    }
  }

  ghost function Product<A, B>(a: set<A>, b: set<B>): set<(A, B)> { set x, y | x in a && y in b :: (x, y) }

  lemma {:induction false} ProductSize<A, B>(a: set<A>, b: set<B>)
    ensures |Product(a, b)| == |a| * |b|
  {
    if a == {} {
      assert Product(a, b) == {};
    } else {
      var x :| x in a;
      var row := map y | y in b :: (x, y);
      ProductSize(a - {x}, b);
      InjectiveSize(row);
      assert row.Keys == b;
      assert row.Values == set y | y in b :: (x, y);
      assert Product(a, b) == Product(a - {x}, b) + row.Values;
      assert |a| * |b| == (|a| - 1) * |b| + |b|;
    }
  }

  ghost function Producers(d: Dax, f: string): set<nat> { set i: nat | i < |d.jobs| && Writes(d.jobs[i], f) }

  ghost function Consumers(d: Dax, f: string): set<nat> { set i: nat | i < |d.jobs| && Reads(d.jobs[i], f) }

  ghost function TransfersOf(l: Layout, f: string): set<Id> { set t | t in l.origin && l.origin[t].file == f }

  function AtLeastOne(n: nat): nat { if n == 0 then 1 else n }

  lemma SourcesSize(d: Dax, l: Layout, f: string) returns (S: set<Id>)
    requires Separate(d, l)
    ensures forall x :: x in S <==> IsSource(d, l, f, x)
    ensures |S| == AtLeastOne(|Producers(d, f)|)
  {
    if Produced(d, f) {
      var m := map i | i in Producers(d, f) :: l.job[i];
      InjectiveSize(m);
      assert m.Keys == Producers(d, f);
      S := m.Values;
      forall x | IsSource(d, l, f, x) ensures x in S {
        var i: nat :| i < |d.jobs| && Writes(d.jobs[i], f) && l.job[i] == x;
        assert i in m;
      }
      var i: nat :| i < |d.jobs| && Writes(d.jobs[i], f);
      assert i in Producers(d, f);
    } else {
      S := {l.root};
      assert Producers(d, f) == {};
    }
  }

  lemma TargetsSize(d: Dax, l: Layout, f: string) returns (S: set<Id>)
    requires Separate(d, l)
    ensures forall x :: x in S <==> IsTarget(d, l, f, x)
    ensures |S| == AtLeastOne(|Consumers(d, f)|)
  {
    if Consumed(d, f) {
      var m := map i | i in Consumers(d, f) :: l.job[i];
      InjectiveSize(m);
      assert m.Keys == Consumers(d, f);
      S := m.Values;
      forall x | IsTarget(d, l, f, x) ensures x in S {
        var i: nat :| i < |d.jobs| && Reads(d.jobs[i], f) && l.job[i] == x;
        assert i in m;
      }
      var i: nat :| i < |d.jobs| && Reads(d.jobs[i], f);
      assert i in Consumers(d, f);
    } else {
      S := {l.end};
      assert Consumers(d, f) == {};
    }
  }

  ghost function Ends(l: Layout, f: string): map<Id, (Id, Id)> {
    map t | t in TransfersOf(l, f) :: (l.origin[t].from, l.origin[t].to)
  }

  lemma EndsArePairs(d: Dax, l: Layout, f: string, S: set<Id>, T: set<Id>, x: Id, y: Id)
    requires TransfersMatch(d, l) && f in FileNames(d)
    requires forall x :: x in S <==> IsSource(d, l, f, x)
    requires forall x :: x in T <==> IsTarget(d, l, f, x)
    ensures (x, y) in Ends(l, f).Values <==> (x, y) in Product(S, T)
  {
    var m := Ends(l, f);
    if (x, y) in Product(S, T) {
      assert Wanted(d, l, Transfer(x, f, y));
      var t :| t in l.origin && l.origin[t] == Transfer(x, f, y);
      assert t in m && m[t] == (x, y);
    }
    if (x, y) in m.Values {
      var t :| t in m && m[t] == (x, y);
      assert Wanted(d, l, l.origin[t]);
    }
  }

  lemma EndsDistinct(d: Dax, l: Layout, f: string)
    requires TransfersMatch(d, l)
    ensures |Ends(l, f).Values| == |TransfersOf(l, f)|
  {
    var m := Ends(l, f);
    assert m.Keys == TransfersOf(l, f);
    forall t, u | t in m && u in m && m[t] == m[u] ensures t == u {
      assert l.origin[t] == l.origin[u];
    }
    InjectiveSize(m);
  }

  lemma EndsAreProduct(d: Dax, l: Layout, f: string, S: set<Id>, T: set<Id>)
    requires TransfersMatch(d, l) && f in FileNames(d)
    requires forall x :: x in S <==> IsSource(d, l, f, x)
    requires forall x :: x in T <==> IsTarget(d, l, f, x)
    ensures Ends(l, f).Values == Product(S, T)
  {
    forall e ensures e in Ends(l, f).Values <==> e in Product(S, T) {
      assert e == (e.0, e.1);
      EndsArePairs(d, l, f, S, T, e.0, e.1);
    }
  }

  /** One transfer per producer, or root, and consumer, or end. */
  lemma TransferCount(d: Dax, l: Layout, f: string)
    requires Separate(d, l) && TransfersMatch(d, l) && f in FileNames(d)
    ensures |TransfersOf(l, f)| == AtLeastOne(|Producers(d, f)|) * AtLeastOne(|Consumers(d, f)|)
  {
    var S := SourcesSize(d, l, f);
    var T := TargetsSize(d, l, f);
    EndsDistinct(d, l, f);
    ProductSize(S, T);
    EndsAreProduct(d, l, f, S, T);
  }

  // ----- Names -----

  function TransferName(parent: string, file: string, child: string): string { parent + "_" + file + "_" + child }

  function JobName(job: Job): string { job.id + "@" + job.name }

  /** Name of an execution of the layout. */
  ghost function ExecName(d: Dax, l: Layout, x: Id): string
    requires |l.job| == |d.jobs|
  {
    if x == l.root then "root" else if x == l.end then "end" else if x in l.job then JobName(d.jobs[JobOf(l, x)]) else ""
  }

  ghost predicate StartsWithName(long: string, short: string) { exists w: string :: long == short + "_" + w }

  ghost predicate EndsWithName(long: string, short: string) { exists w: string :: long == w + "_" + short }

  lemma ParentTold(p: string, r: string, q: string, s: string)
    requires p + "_" + r == q + "_" + s && |p| < |q|
    ensures StartsWithName(q, p)
  {
    var t := p + "_" + r;
    assert t[..|q|] == q && t[..|p|] == p && t[|p|] == '_';
    assert q == p + "_" + q[|p| + 1..];
  }

  lemma ChildTold(r: string, c: string, s: string, e: string)
    requires r + "_" + c == s + "_" + e && |c| < |e|
    ensures EndsWithName(e, c)
  {
    var t := r + "_" + c;
    assert |s| < |r|;
    assert t[|r| + 1..] == c && t[|r|] == '_' && t[|s| + 1..] == e;
    var k := |r| - |s| - 1;
    assert e[k + 1..] == c && e[k] == '_';
    assert e == e[..k] + "_" + c;
  }

  lemma SameParent(p: string, r: string, q: string, s: string)
    requires p + "_" + r == q + "_" + s && !StartsWithName(q, p) && !StartsWithName(p, q)
    ensures p == q && r == s
  {
    if |p| < |q| { ParentTold(p, r, q, s); }
    if |q| < |p| { ParentTold(q, s, p, r); }
    var t := p + "_" + r;
    assert p == t[..|p|] && q == t[..|q|] && r == t[|p| + 1..] && s == t[|q| + 1..];
  }

  lemma SameChild(r: string, c: string, s: string, e: string)
    requires r + "_" + c == s + "_" + e && !EndsWithName(e, c) && !EndsWithName(c, e)
    ensures r == s && c == e
  {
    if |c| < |e| { ChildTold(r, c, s, e); }
    if |e| < |c| { ChildTold(s, e, r, c); }
    var t := r + "_" + c;
    assert r == t[..|r|] && s == t[..|s|] && c == t[|r| + 1..] && e == t[|s| + 1..];
  }

  lemma Grouped(p: string, f: string, c: string)
    ensures TransferName(p, f, c) == p + "_" + (f + "_" + c)
  {
  }
}
