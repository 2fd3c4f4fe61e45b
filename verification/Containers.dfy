/** The tree of trace containers, its index by name, and the lines written about containers over a whole run. */
module Containers {
  import opened Common

  type Id = nat

  datatype Container = Container(name: string, parent: Option<Id>, children: map<string, Id>)

  /** Live containers, by address; an address is never used twice. */
  type Forest = map<Id, Container>

  // ----- Trees -----

  /** Parents are older than their children, and live children know their parent. */
  ghost predicate Linked(all: Forest) {
    && (forall c :: c in all && all[c].parent.Some? ==> all[c].parent.value < c)
    && (forall p, n :: p in all && n in all[p].children ==> all[p].children[n] > p)
    && (forall p, n :: p in all && n in all[p].children && all[p].children[n] in all ==>
          all[all[p].children[n]].name == n && all[all[p].children[n]].parent == Some(p))
  }

  /** Live parents know their children, except for those of `loose`. */
  ghost predicate Attached(all: Forest, loose: set<Id>) {
    forall c :: c in all && c !in loose && all[c].parent.Some? && all[c].parent.value in all ==>
      all[c].name in all[all[c].parent.value].children && all[all[c].parent.value].children[all[c].name] == c
  }

  /** Everything strictly below `c` is attached. */
  ghost predicate Firm(all: Forest, c: Id, loose: set<Id>) {
    forall x :: x in loose ==> x == c || !Below(all, c, x)
  }

  /** The index lists exactly the live containers. */
  ghost predicate Indexed(all: Forest, index: map<string, Id>) {
    && (forall c :: c in all ==> all[c].name in index && index[all[c].name] == c)
    && (forall n :: n in index ==> index[n] in all && all[index[n]].name == n)
  }

  /** `c` is `a` or one of its descendants, following parents. */
  ghost predicate Below(all: Forest, a: Id, c: Id)
    decreases c
  {
    c in all && (c == a || (all[c].parent.Some? && all[c].parent.value < c && Below(all, a, all[c].parent.value)))
  }

  /** `c` is reached from `a` through `n` child links. */
  ghost predicate Down(all: Forest, a: Id, c: Id, n: nat)
    decreases n
  {
    a in all && if n == 0 then a == c else exists k :: k in all[a].children && Down(all, all[a].children[k], c, n - 1)
  }

  ghost function Subtree(all: Forest, a: Id): set<Id> { set c | c in all && Below(all, a, c) }

  /** All children in the subtree of `a` are live. */
  ghost predicate Whole(all: Forest, a: Id) {
    forall x, n :: Below(all, a, x) && n in all[x].children ==> all[x].children[n] in all
  }

  /** One tree: a root without parent, everything else hanging from a live parent. */
  ghost predicate Tree(all: Forest, root: Option<Id>) {
    && Linked(all) && Attached(all, {})
    && (all != map[] ==> root.Some? && root.value in all && all[root.value].parent == None)
    && (forall c :: c in all && Some(c) != root ==> all[c].parent.Some? && all[c].parent.value in all)
    && (forall p, n :: p in all && n in all[p].children ==> all[p].children[n] in all)
  }

  lemma RootStands(all: Forest, root: Option<Id>, c: Id)
    requires Tree(all, root) && c in all
    ensures root.Some? && root.value in all && all[root.value].parent == None
  {
  }

  lemma {:induction false} DownStep(all: Forest, a: Id, p: Id, c: Id, k: string, n: nat)
    requires Down(all, a, p, n) && p in all && k in all[p].children && all[p].children[k] == c && c in all
    ensures Down(all, a, c, n + 1)
    decreases n
  {
    if n > 0 {
      var j :| j in all[a].children && Down(all, all[a].children[j], p, n - 1);
      DownStep(all, all[a].children[j], p, c, k, n - 1);
    } else {
      assert Down(all, c, c, 0);
    }
  }

  lemma {:induction false} BelowIsDown(all: Forest, a: Id, c: Id)
    requires Linked(all) && Attached(all, {}) && Below(all, a, c)
    ensures a in all && exists n :: Down(all, a, c, n)
    decreases c
  {
    if c == a {
      assert Down(all, a, c, 0);
    } else {
      var p := all[c].parent.value;
      BelowIsDown(all, a, p);
      var n :| Down(all, a, p, n);
      DownStep(all, a, p, c, all[c].name, n);
    }
  }

  lemma {:induction false} DownIsBelow(all: Forest, a: Id, c: Id, n: nat)
    requires Linked(all) && Down(all, a, c, n)
    ensures Below(all, a, c)
    decreases n
  {
    if n > 0 {
      var k :| k in all[a].children && Down(all, all[a].children[k], c, n - 1);
      var b := all[a].children[k];
      DownIsBelow(all, b, c, n - 1);
      BelowTransitive(all, a, b, c);
    }
  }

  lemma {:induction false} BelowTransitive(all: Forest, a: Id, b: Id, c: Id)
    requires Below(all, a, b) && Below(all, b, c)
    ensures Below(all, a, c)
    decreases c
  {
    if c != b { BelowTransitive(all, a, b, all[c].parent.value); }
  }

  lemma {:induction false} RootAbove(all: Forest, root: Id, c: Id)
    requires Tree(all, Some(root)) && c in all
    ensures Below(all, root, c)
    decreases c
  {
    RootStands(all, Some(root), c);
    if c != root { RootAbove(all, root, all[c].parent.value); }
  }

  /** The index holds exactly the containers reachable from the root through child links. */
  lemma IndexIsReachable(all: Forest, index: map<string, Id>, root: Id, c: Id)
    requires Tree(all, Some(root)) && Indexed(all, index)
    ensures (exists n :: Down(all, root, c, n)) <==> c in index.Values
  {
    if c in all {
      RootAbove(all, root, c);
      BelowIsDown(all, root, c);
      assert index[all[c].name] == c;
    }
    if n :| Down(all, root, c, n) { DownIsBelow(all, root, c, n); }
  }

  // ----- Destroying a subtree -----

  lemma {:induction false} BelowOlder(all: Forest, a: Id, c: Id)
    requires Below(all, a, c)
    ensures a <= c && a in all
    decreases c
  {
    if c != a { BelowOlder(all, a, all[c].parent.value); }
  }

  /** Removing a whole subtree leaves the ancestry of the others as it was. */
  lemma {:induction false} BelowKept(all: Forest, gone: Id, a: Id, c: Id)
    requires Linked(all) && c in all && !Below(all, gone, c)
    ensures Below(all - Subtree(all, gone), a, c) <==> Below(all, a, c)
    decreases c
  {
    var rest := all - Subtree(all, gone);
    if c != a && all[c].parent.Some? && all[c].parent.value in all {
      var p := all[c].parent.value;
      if Below(all, gone, p) { assert false; }
      BelowKept(all, gone, a, p);
    }
  }

  lemma LinkedRemoved(all: Forest, index: map<string, Id>, gone: Id, loose: set<Id>)
    requires Linked(all) && Attached(all, loose) && Indexed(all, index)
    ensures var rest := all - Subtree(all, gone);
            && Linked(rest) && Attached(rest, loose)
            && Indexed(rest, map n | n in index && !Below(all, gone, index[n]) :: index[n])
  {
  }

  lemma IndexUnique(all: Forest, i: map<string, Id>, j: map<string, Id>)
    requires Indexed(all, i) && Indexed(all, j)
    ensures i == j
  {
    forall n ensures n in i <==> n in j { }
  }

  lemma IndexedWithout(all: Forest, index: map<string, Id>, c: Id)
    requires Indexed(all, index) && c in all
    ensures Indexed(all - {c}, index - {all[c].name})
  {
  }

  /** No container comes before one of its descendants. */
  ghost predicate ChildrenFirst(all: Forest, gone: seq<Id>) {
    forall i, j :: 0 <= i < j < |gone| ==> !Below(all, gone[i], gone[j])
  }

  /** `x` is below one of the children of `c` with these names. */
  ghost predicate UnderOne(all: Forest, c: Id, done: set<string>, x: Id)
    requires c in all
  {
    exists m :: m in done && m in all[c].children && Below(all, all[c].children[m], x)
  }

  /** What is left of `all0` while the children of `c` are destroyed one after the other. */
  ghost predicate Shrunk(all0: Forest, all: Forest, c: Id, done: set<string>)
    requires c in all0
  {
    && (forall x :: x in all <==> x in all0 && !UnderOne(all0, c, done, x))
    && (forall x :: x in all ==> all[x] == all0[x])
    && AncestryKept(all0, all)
  }

  ghost predicate AncestryKept(all0: Forest, all: Forest) {
    forall a, x :: x in all ==> (Below(all, a, x) <==> Below(all0, a, x))
  }

  lemma {:induction false} Chain(all: Forest, a: Id, b: Id, x: Id)
    requires Below(all, a, x) && Below(all, b, x)
    ensures Below(all, a, b) || Below(all, b, a)
    decreases x
  {
    if x != a && x != b { Chain(all, a, b, all[x].parent.value); }
  }

  lemma SiblingsApart(all: Forest, c: Id, m: string, n: string, x: Id)
    requires Linked(all) && c in all && m in all[c].children && n in all[c].children
    requires Below(all, all[c].children[m], x) && Below(all, all[c].children[n], x)
    ensures m == n
  {
    var a, b := all[c].children[m], all[c].children[n];
    BelowOlder(all, a, x);
    BelowOlder(all, b, x);
    Chain(all, a, b, x);
    if a != b {
      if Below(all, a, b) { BelowOlder(all, a, c); } else { BelowOlder(all, b, c); }
    }
  }

  /** Destroying the next child. */
  lemma ShrinkNext(all0: Forest, all: Forest, c: Id, done: set<string>, n: string, all': Forest)
    requires Linked(all0) && Linked(all) && c in all0 && Shrunk(all0, all, c, done)
    requires n in all0[c].children && n !in done && done <= all0[c].children.Keys && all0[c].children[n] in all
    requires all' == all - Subtree(all, all0[c].children[n])
    ensures Shrunk(all0, all', c, done + {n})
  {
    var b := all0[c].children[n];
    forall x ensures x in all' <==> x in all0 && !UnderOne(all0, c, done + {n}, x) {
      if x in all0 {
        assert UnderOne(all0, c, done + {n}, x) <==> UnderOne(all0, c, done, x) || Below(all0, b, x);
      }
    }
    forall a, x | x in all' ensures Below(all', a, x) <==> Below(all0, a, x) {
      BelowKept(all, b, a, x);
    }
  }

  lemma ChildStillThere(all0: Forest, all: Forest, c: Id, done: set<string>, n: string)
    requires Linked(all0) && c in all0 && Shrunk(all0, all, c, done) && Whole(all0, c)
    requires n in all0[c].children && n !in done && done <= all0[c].children.Keys
    ensures all0[c].children[n] in all && Whole(all, all0[c].children[n])
    ensures forall x :: Below(all, all0[c].children[n], x) <==> Below(all0, all0[c].children[n], x)
  {
    var b := all0[c].children[n];
    assert Below(all0, c, c);
    assert b in all0;
    forall x | Below(all0, b, x) ensures x in all && Below(all, b, x) {
      if m :| m in done && m in all0[c].children && Below(all0, all0[c].children[m], x) { SiblingsApart(all0, c, m, n, x); }
    }
    assert Below(all0, b, b);
    forall x | Below(all, b, x) ensures Below(all0, b, x) { assert x in all; }
    forall x, k | Below(all, b, x) && k in all[x].children ensures all[x].children[k] in all {
      BelowTransitive(all0, c, b, x);
      assert Below(all0, c, x);
      var y := all0[x].children[k];
      assert y in all0 && all0[y].parent == Some(x);
      assert Below(all0, b, y);
    }
  }

  lemma SubtreeIs(all: Forest, c: Id, x: Id, loose: set<Id>)
    requires Linked(all) && Attached(all, loose) && Firm(all, c, loose) && c in all && Whole(all, c)
    ensures Below(all, c, x) <==> x == c || (x in all && UnderOne(all, c, all[c].children.Keys, x))
    ensures !UnderOne(all, c, all[c].children.Keys, c)
  {
    assert Below(all, c, c);
    if Below(all, c, x) && x != c { UnderChild(all, c, x, loose); }
    if m :| m in all[c].children && Below(all, all[c].children[m], x) {
      BelowOlder(all, all[c].children[m], x);
      BelowTransitive(all, c, all[c].children[m], x);
    }
    if m :| m in all[c].children && Below(all, all[c].children[m], c) { BelowOlder(all, all[c].children[m], c); }
  }

  lemma SameForest(a: Forest, b: Forest)
    requires (forall x :: x in a <==> x in b) && (forall x :: x in a ==> a[x] == b[x])
    ensures a == b
  {
  }

  /** When all children are gone, only the container itself is left to remove. */
  lemma OnlySelfLeft(all0: Forest, all: Forest, c: Id, loose: set<Id>)
    requires Linked(all0) && Attached(all0, loose) && Firm(all0, c, loose) && c in all0 && Shrunk(all0, all, c, all0[c].children.Keys) && Whole(all0, c)
    ensures c in all && all - {c} == all0 - Subtree(all0, c)
    ensures forall x :: Below(all0, c, x) <==> x == c || (x in all0 && UnderOne(all0, c, all0[c].children.Keys, x))
  {
    forall x ensures Below(all0, c, x) <==> x == c || (x in all0 && UnderOne(all0, c, all0[c].children.Keys, x)) {
      SubtreeIs(all0, c, x, loose);
    }
    SubtreeIs(all0, c, c, loose);
    hide Below, UnderOne, Whole, Linked, Attached, Firm, AncestryKept;
    var rest := all0 - Subtree(all0, c);
    forall x ensures x in rest <==> x in all && x != c { assert x in Subtree(all0, c) <==> Below(all0, c, x) && x in all0; }
    SameForest(all - {c}, rest);
  }

  lemma {:induction false} UnderChild(all: Forest, c: Id, x: Id, loose: set<Id>)
    requires Linked(all) && Attached(all, loose) && Firm(all, c, loose) && Below(all, c, x) && x != c && c in all
    ensures UnderOne(all, c, all[c].children.Keys, x)
    decreases x
  {
    var p := all[x].parent.value;
    if p == c {
      assert Below(all, x, x);
      assert all[c].children[all[x].name] == x;
    } else {
      UnderChild(all, c, p, loose);
      var m :| m in all[c].children && Below(all, all[c].children[m], p);
      assert Below(all, all[c].children[m], x);
    }
  }

  /** Appending the subtree of the next child to what is gone. */
  lemma GoneNext(all0: Forest, all: Forest, c: Id, done: set<string>, n: string, gone: seq<Id>, g: seq<Id>)
    requires Linked(all0) && c in all0 && Shrunk(all0, all, c, done) && n in all0[c].children && n !in done
    requires NoRepeats(gone) && ChildrenFirst(all0, gone) && forall x :: x in gone <==> x in all0 && UnderOne(all0, c, done, x)
    requires NoRepeats(g) && ChildrenFirst(all, g) && forall x :: x in g <==> Below(all, all0[c].children[n], x)
    requires forall x :: Below(all, all0[c].children[n], x) <==> Below(all0, all0[c].children[n], x)
    ensures NoRepeats(gone + g) && ChildrenFirst(all0, gone + g)
    ensures forall x :: x in gone + g <==> x in all0 && UnderOne(all0, c, done + {n}, x)
  {
    var b := all0[c].children[n];
    forall x, y | x in gone && y in g ensures x != y && !Below(all0, x, y) {
      var m :| m in done && m in all0[c].children && Below(all0, all0[c].children[m], x);
      if x == y || Below(all0, x, y) {
        if x != y { BelowTransitive(all0, all0[c].children[m], x, y); }
        SiblingsApart(all0, c, m, n, y);
      }
    }
    forall i, j | 0 <= i < j < |gone + g| ensures (gone + g)[i] != (gone + g)[j] && !Below(all0, (gone + g)[i], (gone + g)[j]) {
      if i < |gone| <= j {
        assert (gone + g)[i] in gone && (gone + g)[j] in g;
      } else if i >= |gone| {
        assert g[i - |gone|] in g && g[j - |gone|] in g;
        assert !Below(all, g[i - |gone|], g[j - |gone|]);
      }
    }
  }

  lemma GoneLast(all0: Forest, c: Id, gone: seq<Id>)
    requires Linked(all0) && c in all0 && NoRepeats(gone) && ChildrenFirst(all0, gone)
    requires forall x :: x in gone <==> x in all0 && UnderOne(all0, c, all0[c].children.Keys, x)
    ensures NoRepeats(gone + [c]) && ChildrenFirst(all0, gone + [c])
  {
    forall x | x in gone ensures x != c && !Below(all0, x, c) {
      var m :| m in all0[c].children && Below(all0, all0[c].children[m], x);
      BelowOlder(all0, all0[c].children[m], x);
      if Below(all0, x, c) { BelowOlder(all0, x, c); }
    }
  }

  // ----- Trace lines -----

  datatype Line = CreateLine(c: Id, parent: Id) | DestroyLine(c: Id) | EventLine(c: Id)

  predicate Mentions(l: Line, x: Id) { l.c == x || (l.CreateLine? && l.parent == x) }

  ghost predicate IsCreated(t: seq<Line>, x: Id) { exists p :: CreateLine(x, p) in t }

  ghost predicate Alive(t: seq<Line>, x: Id) { IsCreated(t, x) && DestroyLine(x) !in t }

  ghost predicate Usable(t: seq<Line>, root: Option<Id>, x: Id) { root == Some(x) || Alive(t, x) }

  /** A line may follow `t`: creation is the first mention, under a usable parent; other lines are about usable
      containers; destruction comes after that of all children. */
  ghost predicate MayFollow(t: seq<Line>, root: Option<Id>, l: Line) {
    match l
    case CreateLine(c, p) => root != Some(c) && (forall k :: k in t ==> !Mentions(k, c)) && Usable(t, root, p) && c != p
    case EventLine(c) => Usable(t, root, c)
    case DestroyLine(c) => root != Some(c) && Alive(t, c) && forall d :: CreateLine(d, c) in t ==> !Alive(t, d)
  }

  ghost predicate WellFormed(t: seq<Line>, root: Option<Id>) {
    t == [] || (WellFormed(t[..|t| - 1], root) && MayFollow(t[..|t| - 1], root, t[|t| - 1]))
  }

  lemma {:induction false} WellFormedAt(t: seq<Line>, root: Option<Id>, i: nat)
    requires WellFormed(t, root) && i < |t|
    ensures WellFormed(t[..i], root) && MayFollow(t[..i], root, t[i])
  {
    var n := |t| - 1;
    if i < n {
      WellFormedAt(t[..n], root, i);
      assert t[..n][..i] == t[..i];
    }
  }

  lemma Earlier(t: seq<Line>, i: nat, j: nat)
    requires i < j <= |t|
    ensures t[i] in t[..j]
  {
    assert t[..j][i] == t[i];
  }

  /** Every line that mentions a container other than the root lies between its creation and its destruction. */
  lemma MentionedWhileAlive(t: seq<Line>, root: Option<Id>, i: nat, x: Id)
    requires WellFormed(t, root) && i < |t| && Mentions(t[i], x) && root != Some(x)
    ensures exists j :: 0 <= j <= i && t[j].CreateLine? && t[j].c == x
    ensures forall j :: 0 <= j < |t| && t[j] == DestroyLine(x) ==> i <= j
    ensures forall j :: 0 <= j < |t| && t[j].CreateLine? && t[j].c == x ==> j <= i
  {
    WellFormedAt(t, root, i);
    if !(t[i].CreateLine? && t[i].c == x) {
      assert Alive(t[..i], x);
      var p :| CreateLine(x, p) in t[..i];
      var j :| 0 <= j < i && t[..i][j] == CreateLine(x, p);
      assert t[j] == CreateLine(x, p);
    }
    forall j: nat | j < |t| && t[j] == DestroyLine(x) ensures i <= j {
      if j < i { Earlier(t, j, i); }
    }
    forall j: nat | j < |t| && t[j].CreateLine? && t[j].c == x ensures j <= i {
      if i < j {
        WellFormedAt(t, root, j);
        Earlier(t, i, j);
      }
    }
  }

  /** A container is destroyed before its parent, and created after it. */
  lemma LifetimesNest(t: seq<Line>, root: Option<Id>, i: nat, j: nat)
    requires WellFormed(t, root) && i < |t| && j < |t| && t[i].CreateLine? && t[j] == DestroyLine(t[i].parent)
    ensures i < j && DestroyLine(t[i].c) in t[..j]
    ensures exists k :: 0 <= k < i && t[k].CreateLine? && t[k].c == t[i].parent
  {
    var c, p := t[i].c, t[i].parent;
    WellFormedAt(t, root, j);
    WellFormedAt(t, root, i);
    assert root != Some(p);
    MentionedWhileAlive(t, root, i, p);
    var k :| 0 <= k <= i && t[k].CreateLine? && t[k].c == p;
    assert t[..j][i] == CreateLine(c, p) && t[..j][i] in t[..j];
    assert IsCreated(t[..j], c);
  }

  function EventLines(b: seq<Id>): seq<Line> { seq(|b|, i requires 0 <= i < |b| => EventLine(b[i])) }

  lemma {:induction false} FlushWellFormed(t: seq<Line>, root: Option<Id>, b: seq<Id>)
    requires WellFormed(t, root) && forall x :: x in b ==> Usable(t, root, x)
    ensures WellFormed(t + EventLines(b), root)
    ensures forall x :: Alive(t + EventLines(b), x) <==> Alive(t, x)
    ensures forall x, p :: CreateLine(x, p) in t + EventLines(b) <==> CreateLine(x, p) in t
    ensures forall x :: DestroyLine(x) in t + EventLines(b) <==> DestroyLine(x) in t
  {
    FlushKeeps(t, b);
    hide EventLines, MayFollow, Alive;
    if b == [] {
      NoEvents();
      assert t + EventLines(b) == t;
    } else {
      var n := |b| - 1;
      FlushWellFormed(t, root, b[..n]);
      var u := t + EventLines(b);
      assert MayFollow(t + EventLines(b[..n]), root, EventLine(b[n])) by { FlushUsable(t, root, b, n); }
      EventLinesPush(b, n);
      assert u[..|u| - 1] == t + EventLines(b[..n]);
    }
  }

  lemma EventLinesPush(b: seq<Id>, n: nat)
    requires |b| == n + 1
    ensures EventLines(b) == EventLines(b[..n]) + [EventLine(b[n])]
  {
  }

  lemma FlushUsable(t: seq<Line>, root: Option<Id>, b: seq<Id>, n: nat)
    requires n < |b| && Usable(t, root, b[n])
    ensures MayFollow(t + EventLines(b[..n]), root, EventLine(b[n]))
  {
    FlushKeeps(t, b[..n]);
  }

  lemma FlushKeeps(t: seq<Line>, b: seq<Id>)
    ensures forall x :: Alive(t + EventLines(b), x) <==> Alive(t, x)
    ensures forall x, p :: CreateLine(x, p) in t + EventLines(b) <==> CreateLine(x, p) in t
    ensures forall x :: DestroyLine(x) in t + EventLines(b) <==> DestroyLine(x) in t
  {
    forall l | l in EventLines(b) ensures l.EventLine? { }
    forall x ensures Alive(t + EventLines(b), x) <==> Alive(t, x) { }
  }

  function DestroyLines(gone: seq<Id>, root: Option<Id>, off: bool): seq<Line> {
    if off || gone == [] then []
    else DestroyLines(gone[..|gone| - 1], root, off) + if root == Some(gone[|gone| - 1]) then [] else [DestroyLine(gone[|gone| - 1])]
  }

  lemma {:induction false} DestroyLinesConcat(a: seq<Id>, b: seq<Id>, root: Option<Id>, off: bool)
    ensures DestroyLines(a + b, root, off) == DestroyLines(a, root, off) + DestroyLines(b, root, off)
  {
    if b == [] {
      assert a + b == a;
    } else {
      var n := |b| - 1;
      assert (a + b)[..|a + b| - 1] == a + b[..n];
      DestroyLinesConcat(a, b[..n], root, off);
    }
  }

  lemma {:induction false} DestroyLinesOf(gone: seq<Id>, root: Option<Id>, off: bool, l: Line)
    ensures l in DestroyLines(gone, root, off) <==> !off && l.DestroyLine? && l.c in gone && root != Some(l.c)
  {
    if !off && gone != [] {
      var k := |gone| - 1;
      DestroyLinesOf(gone[..k], root, off, l);
      assert gone == gone[..k] + [gone[k]];
    }
  }

  /** The lines of destroyed containers: one for each but the root, in their order, and none when they are not wanted. */
  lemma {:induction false} DestroyLinesAre(gone: seq<Id>, root: Option<Id>, off: bool)
    requires NoRepeats(gone)
    ensures forall l :: l in DestroyLines(gone, root, off) <==> !off && l.DestroyLine? && l.c in gone && root != Some(l.c)
    ensures NoRepeats(DestroyLines(gone, root, off))
    ensures forall m, n :: 0 <= m < n < |DestroyLines(gone, root, off)| ==>
              InTurn(gone, DestroyLines(gone, root, off)[m].c, DestroyLines(gone, root, off)[n].c)
  {
    forall l ensures l in DestroyLines(gone, root, off) <==> !off && l.DestroyLine? && l.c in gone && root != Some(l.c) {
      DestroyLinesOf(gone, root, off, l);
    }
    forall m, n | 0 <= m < n < |DestroyLines(gone, root, off)|
      ensures InTurn(gone, DestroyLines(gone, root, off)[m].c, DestroyLines(gone, root, off)[n].c)
    {
      DestroyedInTurn(gone, root, off, m, n);
    }
    hide DestroyLines;
  }

  ghost predicate InTurn(q: seq<Id>, x: Id, y: Id) { exists i, j :: 0 <= i < j < |q| && q[i] == x && q[j] == y }

  lemma {:induction false} DestroyedInTurn(gone: seq<Id>, root: Option<Id>, off: bool, m: nat, n: nat)
    requires m < n < |DestroyLines(gone, root, off)|
    ensures InTurn(gone, DestroyLines(gone, root, off)[m].c, DestroyLines(gone, root, off)[n].c)
  {
    var k := |gone| - 1;
    var front, lines := DestroyLines(gone[..k], root, off), DestroyLines(gone, root, off);
    if n < |front| {
      DestroyedInTurn(gone[..k], root, off, m, n);
      var i, j :| 0 <= i < j < k && gone[..k][i] == lines[m].c && gone[..k][j] == lines[n].c;
      assert gone[i] == lines[m].c && gone[j] == lines[n].c;
    } else {
      DestroyLinesOf(gone[..k], root, off, front[m]);
      var i :| 0 <= i < k && gone[..k][i] == front[m].c;
      assert gone[i] == lines[m].c && gone[k] == lines[n].c;
    }
  }

  /** The trace tells about the live containers: they are created, under their parent, and not destroyed. */
  ghost predicate Told(all: Forest, t: seq<Line>, buffer: seq<Id>, root: Option<Id>, off: bool, nextId: Id) {
    && WellFormed(t, root)
    && (forall x :: x in all && Some(x) != root ==> all[x].parent.Some? && CreateLine(x, all[x].parent.value) in t && DestroyLine(x) !in t)
    && (forall x: Id, p: Id :: CreateLine(x, p) in t && x in all ==> all[x].parent == Some(p))
    && (!off ==> forall x :: Alive(t, x) ==> x in all)
    && (forall l, x: Id :: l in t && Mentions(l, x) ==> x < nextId)
    && (forall x :: x in buffer ==> x in all)
    && (root.Some? ==> root.value < nextId)
  }

  lemma ToldFlush(all: Forest, t: seq<Line>, buffer: seq<Id>, root: Option<Id>, off: bool, nextId: Id)
    requires Told(all, t, buffer, root, off, nextId) && forall x :: x in all ==> x < nextId
    ensures Told(all, t + EventLines(buffer), [], root, off, nextId)
  {
    hide WellFormed;
    forall x | x in buffer ensures Usable(t, root, x) { }
    FlushWellFormed(t, root, buffer);
    forall l, x: Id | l in t + EventLines(buffer) && Mentions(l, x) ensures x < nextId {
      if l in EventLines(buffer) { assert x in buffer; }
    }
  }

  lemma ToldDestroy(all: Forest, t: seq<Line>, root: Option<Id>, off: bool, nextId: Id, c: Id)
    requires Told(all, t, [], root, off, nextId) && c in all && c < nextId
    requires forall x :: x in all ==> all[x].parent != Some(c)
    ensures Told(all - {c}, t + DestroyLines([c], root, off), [], root, off, nextId)
  {
    hide Told;
    assert [c][..0] == [] && DestroyLines([], root, off) == [];
    if off || root == Some(c) {
      ToldSilent(all, t, root, off, nextId, c);
      assert t + DestroyLines([c], root, off) == t;
    } else {
      ToldLined(all, t, root, off, nextId, c);
      assert t + DestroyLines([c], root, off) == t + [DestroyLine(c)];
    }
  }

  lemma ToldSilent(all: Forest, t: seq<Line>, root: Option<Id>, off: bool, nextId: Id, c: Id)
    requires Told(all, t, [], root, off, nextId) && (off || root == Some(c))
    ensures Told(all - {c}, t, [], root, off, nextId)
  {
    if root == Some(c) { WellFormedNoRoot(t, root, c); }
    hide WellFormed;
  }

  lemma ToldLined(all: Forest, t: seq<Line>, root: Option<Id>, off: bool, nextId: Id, c: Id)
    requires Told(all, t, [], root, off, nextId) && c in all && c < nextId && !off && root != Some(c)
    requires forall x :: x in all ==> all[x].parent != Some(c)
    ensures Told(all - {c}, t + [DestroyLine(c)], [], root, off, nextId)
  {
    var u := t + [DestroyLine(c)];
    assert WellFormed(u, root) && forall x :: Alive(u, x) <==> Alive(t, x) && x != c by {
      hide Told;
      DestroyWellFormed(all, t, root, off, nextId, c);
    }
    hide WellFormed, Alive;
    assert forall l :: l in u <==> l in t || l == DestroyLine(c);
    forall l, x: Id | l in u && Mentions(l, x) ensures x < nextId { }
  }

  lemma DestroyWellFormed(all: Forest, t: seq<Line>, root: Option<Id>, off: bool, nextId: Id, c: Id)
    requires Told(all, t, [], root, off, nextId) && c in all && root != Some(c) && !off
    requires forall x :: x in all ==> all[x].parent != Some(c)
    ensures WellFormed(t + [DestroyLine(c)], root)
    ensures forall x :: Alive(t + [DestroyLine(c)], x) <==> Alive(t, x) && x != c
  {
    var u := t + [DestroyLine(c)];
    assert u[..|u| - 1] == t;
    assert Alive(t, c);
    assert MayFollow(t, root, DestroyLine(c));
    assert forall l :: l in u <==> l in t || l == DestroyLine(c);
    forall x ensures Alive(u, x) <==> Alive(t, x) && x != c { }
  }

  lemma {:induction false} WellFormedNoRoot(t: seq<Line>, root: Option<Id>, c: Id)
    requires WellFormed(t, root) && root == Some(c)
    ensures !IsCreated(t, c)
  {
    if p :| CreateLine(c, p) in t {
      var i :| 0 <= i < |t| && t[i] == CreateLine(c, p);
      WellFormedAt(t, root, i);
    }
  }

  lemma NothingBeforeRoot(all: Forest, t: seq<Line>, buffer: seq<Id>, off: bool, nextId: Id)
    requires Told(all, t, buffer, None, off, nextId) && Tree(all, None)
    ensures all == map[] && t == [] && forall x :: x !in buffer
  {
    if t != [] { WellFormedAt(t, None, 0); }
  }

  // ----- The registry -----

  class Registry {
    const off: bool              // no destruction lines wanted
    var all: Forest
    var index: map<string, Id>   // all containers by name
    var root: Option<Id>
    var nextId: Id
    var buffer: seq<Id>          // containers of the buffered events, in buffer order
    var trace: seq<Line>

    ghost predicate Sound(loose: set<Id>) reads this {
      && Linked(all) && Attached(all, loose) && Indexed(all, index) && Told(all, trace, buffer, root, off, nextId)
      && forall x :: x in all ==> x < nextId
    }

    /** One tree of containers, indexed by name, with a trace that tells about it. */
    ghost predicate Valid() reads this { Sound({}) && Tree(all, root) }

    constructor (off: bool)
      ensures Valid() && this.off == off && all == map[] && trace == []
    {
      this.off := off;
      all, index, root, nextId, buffer, trace := map[], map[], None, 0, [], [];
    }

    method ByNameOrNull(name: string) returns (c: Option<Id>)
      requires Valid()
      ensures c.Some? <==> exists x :: x in all && all[x].name == name
      ensures c.Some? ==> c.value in all && all[c.value].name == name
    {
      c := if name in index then Some(index[name]) else None;
    }

    /** The network zone without parent becomes the root; no line is written for it. */
    method NewRoot(name: string)
      requires Valid() && root.None?
      modifies this
      ensures Valid() && root == Some(old(nextId)) && all == map[old(nextId) := Container(name, None, map[])]
      ensures trace == old(trace)
    {
      hide WellFormed, Linked, Attached, Indexed, Told, Tree;
      NothingBeforeRoot(all, trace, buffer, off, nextId);
      var c := nextId;
      nextId := nextId + 1;
      all := map[c := Container(name, None, map[])];
      index := map[name := c];
      root := Some(c);
      RootAlone(c, name, buffer, off);
    }

    /** A host, a router or any container of a named type. Without a type, the container is registered but neither
        attached to its parent nor traced. A name already taken is refused, but only after the attachment and the line:
        tree and trace then stay sound only without a type, or when no destruction lines are wanted and the parent
        has a child of that name already. */
    method NewChild(name: string, typed: bool, parent: Id) returns (ok: bool)
      requires Valid() && parent in all
      modifies this
      ensures ok <==> name !in old(index)
      ensures ok ==> (Valid() <==> typed)
      ensures !ok ==> (Valid() <==> !typed || (off && name in old(all)[parent].children))
      ensures index == if ok then old(index)[name := old(nextId)] else old(index)
      ensures var attached := Attach(old(all), parent, old(nextId), name, typed);
              all == if ok then attached[old(nextId) := Container(name, Some(parent), map[])] else attached
      ensures nextId == old(nextId) + 1
      ensures trace == old(trace) + if typed then [CreateLine(old(nextId), parent)] else []
      ensures root == old(root) && buffer == old(buffer)
    {
      hide WellFormed, Linked, Attached, Indexed, Told, Tree;
      RootOlder(all, trace, buffer, root, off, nextId);
      var c := nextId;
      nextId := nextId + 1;
      if typed {
        if name !in all[parent].children {
          all := all[parent := all[parent].(children := all[parent].children[name := c])];
        }
        trace := trace + [CreateLine(c, parent)];
      }
      ok := name !in index;
      if ok {
        NameIsNew(old(all), index, root, parent, name);
        index := index[name := c];
        all := all[c := Container(name, Some(parent), map[])];
        if typed {
          ChildAttached(old(all), old(index), root, parent, name, c, all, index);
          ChildTold(old(all), old(trace), buffer, root, off, c, parent, all, trace);
        } else {
          Unattached(old(all), root, parent, name, c, all);
        }
      } else if typed {
        if name in old(all)[parent].children {
          RefusedTold(all, old(trace), buffer, root, off, c, parent, trace);
        } else {
          Dangling(all, root, parent, name, c);
        }
      } else {
        ToldLater(all, trace, buffer, root, off, c);
      }
    }

    /** A network zone with a parent: its name is registered first, so a refusal changes nothing. */
    method NewZone(name: string, parent: Id) returns (ok: bool)
      requires Valid() && parent in all
      modifies this
      ensures Valid() && (ok <==> name !in old(index)) && nextId == old(nextId) + 1 && root == old(root) && buffer == old(buffer)
      ensures ok ==> index == old(index)[name := old(nextId)] && trace == old(trace) + [CreateLine(old(nextId), parent)]
      ensures ok ==> all == Attach(old(all), parent, old(nextId), name, true)[old(nextId) := Container(name, Some(parent), map[])]
      ensures !ok ==> index == old(index) && all == old(all) && trace == old(trace)
    {
      hide WellFormed, Linked, Attached, Indexed, Told, Tree;
      RootOlder(all, trace, buffer, root, off, nextId);
      var c := nextId;
      nextId := nextId + 1;
      ok := name !in index;
      if ok {
        NameIsNew(all, index, root, parent, name);
        index := index[name := c];
        all := all[c := Container(name, Some(parent), map[])];
        if name !in all[parent].children {
          all := all[parent := all[parent].(children := all[parent].children[name := c])];
        }
        trace := trace + [CreateLine(c, parent)];
        assert all == Attach(old(all), parent, c, name, true)[c := Container(name, Some(parent), map[])];
        ChildAttached(old(all), old(index), root, parent, name, c, all, index);
        ChildTold(old(all), old(trace), buffer, root, off, c, parent, all, trace);
      } else {
        ToldLater(all, trace, buffer, root, off, c);
      }
    }

    /** An event on a live container, put anywhere in the buffer. */
    method Issue(c: Id, at: nat)
      requires Valid() && c in all && at <= |buffer|
      modifies this`buffer
      ensures Valid() && buffer == old(buffer)[..at] + [c] + old(buffer)[at..]
    {
      hide WellFormed, Linked, Attached, Indexed, Told, Tree;
      IssueTold(all, trace, buffer, root, off, nextId, c, at);
      buffer := buffer[..at] + [c] + buffer[at..];
    }

    /** Prints the first `n` buffered events. */
    method Dump(n: nat)
      requires Valid() && n <= |buffer|
      modifies this`buffer, this`trace
      ensures Valid() && trace == old(trace) + EventLines(old(buffer)[..n]) && buffer == old(buffer)[n..]
      ensures |trace| == |old(trace)| + n && forall i :: 0 <= i < n ==> trace[|old(trace)| + i] == EventLine(old(buffer)[i])
    {
      hide WellFormed, Linked, Indexed, Attached;
      ToldFlushSome(all, trace, buffer, root, off, nextId, n);
      trace := trace + EventLines(buffer[..n]);
      buffer := buffer[n..];
    }

    /** Destroys the container: its children first, in any order, then itself. */
    method Destroy(c: Id, ghost loose: set<Id>) returns (ghost gone: seq<Id>)
      requires Sound(loose) && c in all && Whole(all, c) && Firm(all, c, loose)
      modifies this`all, this`index, this`buffer, this`trace
      ensures Sound(loose) && all == old(all) - Subtree(old(all), c)
      ensures index == map n | n in old(index) && !Below(old(all), c, old(index)[n]) :: old(index)[n]
      ensures (forall x :: x in gone <==> Below(old(all), c, x)) && NoRepeats(gone) && ChildrenFirst(old(all), gone)
      ensures trace == old(trace) + EventLines(old(buffer)) + DestroyLines(gone, root, off) && buffer == []
      decreases nextId - c
    {
      hide WellFormed, Linked, Attached, Firm, Indexed, Told, Whole, Below, UnderOne, Shrunk, ChildrenFirst, NoRepeats,
           DestroyLines, EventLines;
      ghost var all0, index0 := all, index;
      gone := [];
      var names := all[c].children.Keys;
      StartShrink(all0, c, root, off);
      while names != {}
        invariant names <= all0[c].children.Keys && c in all && all[c] == all0[c]
        invariant Sound(loose) && Shrunk(all0, all, c, all0[c].children.Keys - names)
        invariant forall x :: x in gone <==> x in all0 && UnderOne(all0, c, all0[c].children.Keys - names, x)
        invariant NoRepeats(gone) && ChildrenFirst(all0, gone)
        invariant trace + EventLines(buffer) == old(trace) + EventLines(old(buffer)) + DestroyLines(gone, root, off)
        decreases names
      {
        var n :| n in names;
        ghost var done, before := all0[c].children.Keys - names, all;
        ghost var g := DestroyChild(c, n, loose, all0, done, gone);
        DestroyLinesConcat(gone, g, root, off);
        gone := gone + g;
        names := names - {n};
        assert all0[c].children.Keys - names == done + {n};
      }
      assert all0[c].children.Keys - names == all0[c].children.Keys;
      OnlySelfLeft(all0, all, c, loose);
      GoneLast(all0, c, gone);
      DestroyLinesConcat(gone, [c], root, off);
      gone := gone + [c];
      DestroySelf(c, loose, all0, index0);
    }

    /** One turn of the loop over the children. */
    method DestroyChild(c: Id, n: string, ghost loose: set<Id>, ghost all0: Forest, ghost done: set<string>, ghost gone: seq<Id>)
      returns (ghost g: seq<Id>)
      requires Sound(loose) && c in all0 && Linked(all0) && Whole(all0, c) && Firm(all0, c, loose) && Shrunk(all0, all, c, done)
      requires c in all && all[c] == all0[c] && n in all0[c].children && n !in done && done <= all0[c].children.Keys
      requires forall x :: x in gone <==> x in all0 && UnderOne(all0, c, done, x)
      requires NoRepeats(gone) && ChildrenFirst(all0, gone)
      modifies this`all, this`index, this`buffer, this`trace
      ensures Sound(loose) && Shrunk(all0, all, c, done + {n}) && c in all && all[c] == all0[c]
      ensures forall x :: x in gone + g <==> x in all0 && UnderOne(all0, c, done + {n}, x)
      ensures NoRepeats(gone + g) && ChildrenFirst(all0, gone + g)
      ensures trace + EventLines(buffer) == old(trace) + EventLines(old(buffer)) + DestroyLines(g, root, off)
      decreases nextId - c, 0
    {
      hide WellFormed, Linked, Attached, Firm, Indexed, Told, Whole, Below, UnderOne, Shrunk, ChildrenFirst, NoRepeats,
           DestroyLines, EventLines;
      ghost var before := all;
      ChildStillThere(all0, all, c, done, n);
      ChildFirm(all0, all, c, n, loose);
      g := Destroy(all[c].children[n], loose);
      GoneNext(all0, before, c, done, n, gone, g);
      ShrinkNext(all0, before, c, done, n, all);
      ParentStays(all0, all, c, done + {n});
      NoEvents();
    }

    /** The end of the destructor: the index entry, the buffered events, the line, the container. */
    method DestroySelf(c: Id, ghost loose: set<Id>, ghost all0: Forest, ghost index0: map<string, Id>)
      requires Sound(loose) && c in all && c in all0 && Linked(all0) && Attached(all0, loose) && Indexed(all0, index0)
      requires Shrunk(all0, all, c, all0[c].children.Keys) && all[c] == all0[c] && all - {c} == all0 - Subtree(all0, c)
      modifies this`all, this`index, this`buffer, this`trace
      ensures Sound(loose) && all == all0 - Subtree(all0, c)
      ensures index == map n | n in index0 && !Below(all0, c, index0[n]) :: index0[n]
      ensures trace == old(trace) + EventLines(old(buffer)) + DestroyLines([c], root, off) && buffer == []
    {
      hide WellFormed, Linked, Attached, Indexed, Told, Below, Shrunk, DestroyLines, EventLines;
      ChildrenGone(all0, all, c, loose);
      IndexedWithout(all, index, c);
      LinkedRemoved(all0, index0, c, loose);
      IndexUnique(all - {c}, index - {all[c].name}, map n | n in index0 && !Below(all0, c, index0[n]) :: index0[n]);
      index := index - {all[c].name};
      ToldFlush(all, trace, buffer, root, off, nextId);
      trace := trace + EventLines(buffer);
      buffer := [];
      ToldDestroy(all, trace, root, off, nextId, c);
      trace := trace + DestroyLines([c], root, off);
      all := all - {c};
    }

    /** Detaches the container from its parent and destroys its whole subtree. */
    method RemoveFromParent(c: Id) returns (ghost gone: seq<Id>)
      requires Valid() && c in all
      modifies this`all, this`index, this`buffer, this`trace
      ensures Valid()
      ensures forall x :: x in all <==> x in old(all) && !Below(old(all), c, x)
      ensures forall x :: x in all ==>
                all[x] == if old(all)[c].parent == Some(x) then old(all)[x].(children := old(all)[x].children - {old(all)[c].name}) else old(all)[x]
      ensures index == map n | n in old(index) && !Below(old(all), c, old(index)[n]) :: old(index)[n]
      ensures (forall x :: x in gone <==> Below(old(all), c, x)) && NoRepeats(gone) && ChildrenFirst(old(all), gone)
      ensures trace == old(trace) + EventLines(old(buffer)) + DestroyLines(gone, root, off) && buffer == []
    {
      hide WellFormed, Told, Below, ChildrenFirst, NoRepeats, DestroyLines, EventLines, Indexed, Linked, Attached, Tree, Firm, Whole;
      ghost var all0, index0 := all, index;
      ParentLives(all, root, c);
      if all[c].parent.Some? {
        var p := all[c].parent.value;
        all := all[p := all[p].(children := all[p].children - {all[c].name})];
      }
      ghost var all1 := all;
      Detached(all0, root, c, all1);
      DetachedTold(all0, index, trace, buffer, root, off, nextId, all1);
      gone := Destroy(c, {c});
      Remains(all0, all1, root, c, all);
      GoneAsBefore(all0, all1, c, gone, index0);
    }
  }

  lemma RootAlone(c: Id, name: string, buffer: seq<Id>, off: bool)
    requires forall x :: x !in buffer
    ensures var all := map[c := Container(name, None, map[])];
            && Linked(all) && Attached(all, {}) && Indexed(all, map[name := c]) && Tree(all, Some(c))
            && Told(all, [], buffer, Some(c), off, c + 1)
  {
    NoLines(Some(c));
    hide WellFormed;
  }

  lemma NoLines(root: Option<Id>)
    ensures WellFormed([], root)
  {
  }

  lemma NoEvents()
    ensures EventLines([]) == []
  {
  }

  function Attach(all: Forest, p: Id, c: Id, name: string, typed: bool): Forest
    requires p in all
  {
    if typed && name !in all[p].children then all[p := all[p].(children := all[p].children[name := c])] else all
  }

  lemma NameIsNew(all: Forest, index: map<string, Id>, root: Option<Id>, p: Id, name: string)
    requires Tree(all, root) && Indexed(all, index) && p in all && name !in index
    ensures name !in all[p].children
  {
  }

  lemma RootOlder(all: Forest, t: seq<Line>, buffer: seq<Id>, root: Option<Id>, off: bool, nextId: Id)
    requires Told(all, t, buffer, root, off, nextId)
    ensures root != Some(nextId)
  {
  }

  lemma ChildAttached(all: Forest, index: map<string, Id>, root: Option<Id>, p: Id, name: string, c: Id, all': Forest, index': map<string, Id>)
    requires Tree(all, root) && Indexed(all, index) && p in all && name !in index && c !in all && p < c && root != Some(c)
    requires all' == Attach(all, p, c, name, true)[c := Container(name, Some(p), map[])] && index' == index[name := c]
    ensures Tree(all', root) && Indexed(all', index') && Linked(all') && Attached(all', {}) && OneMore(all, all', c, p)
  {
    ChildGrown(all, p, name, c, all');
    hide Linked, OneMore, Attach, Attached, Indexed, Tree;
    NameIsNew(all, index, root, p, name);
    ChildIndexed(all, index, p, name, c, all', index');
    ParentsLive(all, root, p);
    ChildLinked(all, p, name, c, all');
    TreeGrown(all, root, p, c, all');
  }

  lemma ParentsLive(all: Forest, root: Option<Id>, p: Id)
    requires Tree(all, root) && p in all
    ensures Linked(all) && Attached(all, {})
    ensures forall q, n :: q in all && n in all[q].children ==> all[q].children[n] in all
    ensures forall x :: x in all && all[x].parent.Some? ==> all[x].parent.value in all
  {
    hide Linked, Attached;
    RootStands(all, root, p);
  }

  lemma TreeGrown(all: Forest, root: Option<Id>, p: Id, c: Id, all': Forest)
    requires Tree(all, root) && p in all && root != Some(c) && OneMore(all, all', c, p) && Linked(all') && Attached(all', {})
    requires forall q, n :: q in all' && n in all'[q].children ==> all'[q].children[n] in all'
    ensures Tree(all', root)
  {
    hide Linked, Attached;
    RootStands(all, root, p);
  }

  /** The same containers and parents, and `c` under `p`. */
  ghost predicate OneMore(all: Forest, all': Forest, c: Id, p: Id) {
    && (forall x :: x in all' <==> x in all || x == c)
    && (forall x :: x in all ==> all'[x].parent == all[x].parent)
    && c !in all && all'[c].parent == Some(p)
  }

  lemma ChildGrown(all: Forest, p: Id, name: string, c: Id, all': Forest)
    requires p in all && c !in all && all' == Attach(all, p, c, name, true)[c := Container(name, Some(p), map[])]
    ensures OneMore(all, all', c, p)
    ensures name !in all[p].children ==>
              all' == all[p := all[p].(children := all[p].children[name := c])][c := Container(name, Some(p), map[])]
  {
  }

  lemma ChildIndexed(all: Forest, index: map<string, Id>, p: Id, name: string, c: Id, all': Forest, index': map<string, Id>)
    requires Indexed(all, index) && p in all && name !in index && c !in all
    requires all' == Attach(all, p, c, name, true)[c := Container(name, Some(p), map[])] && index' == index[name := c]
    ensures Indexed(all', index')
  {
  }

  lemma ChildLinked(all: Forest, p: Id, name: string, c: Id, all': Forest)
    requires Linked(all) && Attached(all, {}) && p in all && c !in all && p < c && name !in all[p].children
    requires forall q, n :: q in all && n in all[q].children ==> all[q].children[n] in all
    requires forall x :: x in all && all[x].parent.Some? ==> all[x].parent.value in all
    requires all' == all[p := all[p].(children := all[p].children[name := c])][c := Container(name, Some(p), map[])]
    ensures Linked(all') && Attached(all', {}) && forall q, n :: q in all' && n in all'[q].children ==> all'[q].children[n] in all'
  {
    forall q, n | q in all' && n in all'[q].children
      ensures all'[q].children[n] > q && all'[q].children[n] in all'
      ensures all'[all'[q].children[n]].name == n && all'[all'[q].children[n]].parent == Some(q)
    {
      if q == p && n == name {
      } else {
        assert n in all[q].children && all'[q].children[n] == all[q].children[n];
      }
    }
    forall x | x in all' && all'[x].parent.Some? && all'[x].parent.value in all'
      ensures all'[x].name in all'[all'[x].parent.value].children && all'[all'[x].parent.value].children[all'[x].name] == x
    {
      if x != c { assert all'[x].parent == all[x].parent && all'[x].name == all[x].name; }
    }
  }

  lemma ChildTold(all: Forest, t: seq<Line>, buffer: seq<Id>, root: Option<Id>, off: bool, c: Id, p: Id, all': Forest, t': seq<Line>)
    requires Told(all, t, buffer, root, off, c) && p in all && root != Some(c) && p < c
    requires OneMore(all, all', c, p) && t' == t + [CreateLine(c, p)]
    ensures Told(all', t', buffer, root, off, c + 1)
  {
    hide WellFormed, Alive, Mentions;
    ChildWellFormed(all, t, buffer, root, off, c, p);
    ChildLines(t, c, p);
    forall x: Id, q: Id | CreateLine(x, q) in t' && x in all' ensures all'[x].parent == Some(q) { }
  }

  /** The first line about `c`. */
  lemma ChildLines(t: seq<Line>, c: Id, p: Id)
    requires p < c && forall l, x: Id :: l in t && Mentions(l, x) ==> x < c
    ensures DestroyLine(c) !in t && forall q: Id :: CreateLine(c, q) !in t
    ensures forall l :: l in t + [CreateLine(c, p)] <==> l in t || l == CreateLine(c, p)
    ensures forall l, x: Id :: l in t + [CreateLine(c, p)] && Mentions(l, x) ==> x < c + 1
  {
    assert Mentions(DestroyLine(c), c);
    forall q: Id ensures CreateLine(c, q) !in t { assert Mentions(CreateLine(c, q), c); }
  }

  lemma ChildWellFormed(all: Forest, t: seq<Line>, buffer: seq<Id>, root: Option<Id>, off: bool, c: Id, p: Id)
    requires Told(all, t, buffer, root, off, c) && p in all && root != Some(c) && p < c
    ensures WellFormed(t + [CreateLine(c, p)], root)
    ensures forall x :: Alive(t + [CreateLine(c, p)], x) ==> Alive(t, x) || x == c
  {
    var t' := t + [CreateLine(c, p)];
    assert t'[..|t'| - 1] == t;
    assert Usable(t, root, p);
  }

  lemma ToldLater(all: Forest, t: seq<Line>, buffer: seq<Id>, root: Option<Id>, off: bool, c: Id)
    requires Told(all, t, buffer, root, off, c)
    ensures Told(all, t, buffer, root, off, c + 1)
  {
    hide WellFormed, Alive;
  }

  /** A create line for a container that does not come to life. */
  lemma RefusedTold(all: Forest, t: seq<Line>, buffer: seq<Id>, root: Option<Id>, off: bool, c: Id, p: Id, t': seq<Line>)
    requires Told(all, t, buffer, root, off, c) && p in all && c !in all && root != Some(c) && p < c && t' == t + [CreateLine(c, p)]
    ensures Told(all, t', buffer, root, off, c + 1) <==> off
  {
    assert WellFormed(t', root) by {
      hide Told;
      ChildWellFormed(all, t, buffer, root, off, c, p);
    }
    assert Alive(t', c) by {
      assert CreateLine(c, p) in t';
      assert Mentions(DestroyLine(c), c);
    }
    hide WellFormed, Alive;
    assert forall l :: l in t' <==> l in t || l == CreateLine(c, p);
    forall l, x: Id | l in t' && Mentions(l, x) ensures x < c + 1 { }
  }

  /** A child that does not come to life hangs from its parent. */
  lemma Dangling(all: Forest, root: Option<Id>, p: Id, name: string, c: Id)
    requires p in all && name in all[p].children && all[p].children[name] == c && c !in all
    ensures !Tree(all, root)
  {
  }

  /** A container registered without a type is out of reach from the root. */
  lemma Unattached(all: Forest, root: Option<Id>, p: Id, name: string, c: Id, all': Forest)
    requires p in all && c !in all && p != c && name !in all[p].children && all' == all[c := Container(name, Some(p), map[])]
    ensures !Attached(all', {})
  {
    assert all'[c].parent == Some(p) && p in all' && name !in all'[p].children;
  }

  lemma IssueTold(all: Forest, t: seq<Line>, buffer: seq<Id>, root: Option<Id>, off: bool, nextId: Id, c: Id, at: nat)
    requires Told(all, t, buffer, root, off, nextId) && c in all && at <= |buffer|
    ensures Told(all, t, buffer[..at] + [c] + buffer[at..], root, off, nextId)
  {
    hide WellFormed;
    forall x | x in buffer[..at] + [c] + buffer[at..] ensures x in all {
      assert x == c || x in buffer[..at] || x in buffer[at..];
    }
  }

  lemma ToldFlushSome(all: Forest, t: seq<Line>, buffer: seq<Id>, root: Option<Id>, off: bool, nextId: Id, n: nat)
    requires Told(all, t, buffer, root, off, nextId) && n <= |buffer| && forall x :: x in all ==> x < nextId
    ensures Told(all, t + EventLines(buffer[..n]), buffer[n..], root, off, nextId)
  {
    hide WellFormed;
    assert Told(all, t, buffer[..n], root, off, nextId);
    ToldFlush(all, t, buffer[..n], root, off, nextId);
    forall x | x in buffer[n..] ensures x in all { assert x in buffer; }
  }

  lemma StartShrink(all: Forest, c: Id, root: Option<Id>, off: bool)
    requires c in all
    ensures Shrunk(all, all, c, {}) && NoRepeats<Id>([]) && ChildrenFirst(all, []) && DestroyLines([], root, off) == []
    ensures forall x :: !UnderOne(all, c, {}, x)
    ensures all[c].children.Keys - all[c].children.Keys == {}
  {
  }

  lemma ChildFirm(all0: Forest, all: Forest, c: Id, n: string, loose: set<Id>)
    requires Linked(all0) && c in all0 && Whole(all0, c) && n in all0[c].children && Firm(all0, c, loose)
    requires forall x :: Below(all, all0[c].children[n], x) <==> Below(all0, all0[c].children[n], x)
    ensures Firm(all, all0[c].children[n], loose) && all0[c].children[n] > c
  {
    var b := all0[c].children[n];
    assert Below(all0, c, c) && b in all0 && Below(all0, c, b);
    forall x | x in loose ensures x == b || !Below(all, b, x) {
      if Below(all0, b, x) {
        BelowOlder(all0, b, x);
        BelowTransitive(all0, c, b, x);
      }
    }
  }

  lemma ParentStays(all0: Forest, all: Forest, c: Id, done: set<string>)
    requires Linked(all0) && c in all0 && Shrunk(all0, all, c, done)
    ensures c in all && all[c] == all0[c]
  {
    if m :| m in done && m in all0[c].children && Below(all0, all0[c].children[m], c) { BelowOlder(all0, all0[c].children[m], c); }
  }

  lemma ChildrenGone(all0: Forest, all: Forest, c: Id, loose: set<Id>)
    requires Linked(all0) && Attached(all0, loose) && c in all0 && Shrunk(all0, all, c, all0[c].children.Keys)
    requires all - {c} == all0 - Subtree(all0, c) && c in all
    ensures forall x :: x in all ==> all[x].parent != Some(c)
  {
    forall x | x in all ensures all[x].parent != Some(c) {
      if x == c {
      } else {
        assert x in all - {c};
        assert !Below(all0, c, x) && Below(all0, c, c);
      }
    }
  }

  lemma ParentLives(all: Forest, root: Option<Id>, c: Id)
    requires Tree(all, root) && c in all
    ensures all[c].parent.Some? ==> all[c].parent.value in all && all[c].parent.value != c
  {
    RootStands(all, root, c);
  }

  /** Same containers with the same names and parents; some children may be forgotten. */
  ghost predicate SameParents(all: Forest, all': Forest) {
    all.Keys == all'.Keys && forall x :: x in all ==> all'[x].name == all[x].name && all'[x].parent == all[x].parent
  }

  lemma {:induction false} SameBelow(all: Forest, all': Forest, a: Id, x: Id)
    requires SameParents(all, all')
    ensures Below(all, a, x) <==> Below(all', a, x)
    decreases x
  {
    if x in all && all[x].parent.Some? && all[x].parent.value < x { SameBelow(all, all', a, all[x].parent.value); }
  }

  /** The containers after `c` has been erased from the children of its parent. */
  ghost function Detach(all: Forest, c: Id): Forest
    requires c in all
  {
    if all[c].parent.Some? && all[c].parent.value in all then
      var p := all[c].parent.value;
      all[p := all[p].(children := all[p].children - {all[c].name})]
    else all
  }

  lemma Detached(all: Forest, root: Option<Id>, c: Id, all': Forest)
    requires Tree(all, root) && c in all && all' == Detach(all, c)
    ensures SameParents(all, all') && Linked(all') && Attached(all', {c}) && Whole(all', c) && Firm(all', c, {c})
  {
    DetachedLinked(all, c, all');
    DetachedWhole(all, c, all');
    hide Linked, Attached, Below, Detach;
  }

  lemma DetachedWhole(all: Forest, c: Id, all': Forest)
    requires c in all && all' == Detach(all, c) && all'.Keys == all.Keys
    requires forall p, n :: p in all && n in all[p].children ==> all[p].children[n] in all
    ensures Whole(all', c)
  {
    forall x, n | Below(all', c, x) && n in all'[x].children ensures all'[x].children[n] in all' {
      assert n in all[x].children && all'[x].children[n] == all[x].children[n];
    }
  }

  lemma DetachedLinked(all: Forest, c: Id, all': Forest)
    requires Linked(all) && Attached(all, {}) && c in all && all' == Detach(all, c)
    ensures SameParents(all, all') && Linked(all') && Attached(all', {c})
  {
    forall q, n | q in all' && n in all'[q].children
      ensures all'[q].children[n] > q
      ensures all'[q].children[n] in all' ==> all'[all'[q].children[n]].name == n && all'[all'[q].children[n]].parent == Some(q)
    {
      assert n in all[q].children && all'[q].children[n] == all[q].children[n];
    }
    forall x | x in all' && x != c && all'[x].parent.Some? && all'[x].parent.value in all'
      ensures all'[x].name in all'[all'[x].parent.value].children && all'[all'[x].parent.value].children[all'[x].name] == x
    {
      var q := all[x].parent.value;
      assert all[q].children[all[x].name] == x;
    }
  }

  lemma DetachedTold(all: Forest, index: map<string, Id>, t: seq<Line>, buffer: seq<Id>, root: Option<Id>, off: bool, nextId: Id, all': Forest)
    requires SameParents(all, all') && Indexed(all, index) && Told(all, t, buffer, root, off, nextId)
    ensures Indexed(all', index) && Told(all', t, buffer, root, off, nextId)
  {
    hide WellFormed, Alive;
  }

  lemma ChildrenRemain(all0: Forest, all1: Forest, root: Option<Id>, c: Id, all: Forest)
    requires Tree(all0, root) && c in all0 && all1 == Detach(all0, c) && SameParents(all0, all1)
    requires Linked(all1) && all == all1 - Subtree(all1, c)
    ensures forall p, n :: p in all && n in all[p].children ==> all[p].children[n] in all
  {
    forall p, n | p in all && n in all[p].children ensures all[p].children[n] in all {
      var y := all1[p].children[n];
      assert n in all0[p].children && all0[p].children[n] == y;
      assert y in all0 && all0[y].parent == Some(p) && all0[y].name == n;
      assert y != c;
    }
  }

  lemma Remains(all0: Forest, all1: Forest, root: Option<Id>, c: Id, all: Forest)
    requires Tree(all0, root) && c in all0 && all1 == Detach(all0, c) && SameParents(all0, all1)
    requires Linked(all1) && Linked(all) && Attached(all, {c}) && all == all1 - Subtree(all1, c)
    ensures Tree(all, root)
  {
    RootStands(all0, root, c);
    assert Below(all1, c, c);
    forall x | x in all && Some(x) != root ensures all[x].parent.Some? && all[x].parent.value in all {
      if Below(all1, c, all[x].parent.value) { assert Below(all1, c, x); }
    }
    ChildrenRemain(all0, all1, root, c, all);
    if all != map[] {
      var x :| x in all;
      if root == Some(c) { RootAbove(all0, c, x); SameBelow(all0, all1, c, x); }
      else { RootHigher(all1, root.value, c); }
    }
  }

  lemma RootHigher(all: Forest, root: Id, c: Id)
    requires root in all && all[root].parent == None && root != c
    ensures !Below(all, c, root)
  {
  }

  lemma GoneAsBefore(all0: Forest, all1: Forest, c: Id, gone: seq<Id>, index: map<string, Id>)
    requires SameParents(all0, all1) && ChildrenFirst(all1, gone)
    ensures ChildrenFirst(all0, gone) && forall x :: Below(all0, c, x) <==> Below(all1, c, x)
    ensures (map n | n in index && !Below(all1, c, index[n]) :: index[n]) == (map n | n in index && !Below(all0, c, index[n]) :: index[n])
  {
    forall a, x ensures Below(all0, a, x) <==> Below(all1, a, x) { SameBelow(all0, all1, a, x); }
  }
}
