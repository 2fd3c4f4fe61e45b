/** What the tags of a DAX document say, by their places in the document. */
module DaxTags {
  import opened Common
  import opened DaxGraph
  import A = DaxAutomaton
  import P = DaxProcessor

  predicate Starts(t: P.Tag, e: A.Element) { (t.Begin? || t.Empty?) && t.e == e }

  /** Where elements `e` start, from `lo` up to `hi`. */
  function Places(tags: seq<P.Tag>, e: A.Element, lo: nat, hi: nat): (ps: seq<nat>)
    requires hi <= |tags|
    ensures forall k :: 0 <= k < |ps| ==> lo <= ps[k] < hi && Starts(tags[ps[k]], e)
  {
    if hi <= lo then [] else Places(tags, e, lo, hi - 1) + if Starts(tags[hi - 1], e) then [hi - 1] else []
  }

  /** All places, from left to right. */
  lemma {:induction false} PlacesAre(tags: seq<P.Tag>, e: A.Element, lo: nat, hi: nat)
    requires hi <= |tags|
    ensures forall k, m :: 0 <= k < m < |Places(tags, e, lo, hi)| ==> Places(tags, e, lo, hi)[k] < Places(tags, e, lo, hi)[m]
    ensures forall p :: p in Places(tags, e, lo, hi) <==> lo <= p < hi && Starts(tags[p], e)
  {
    hide Starts;
    if lo < hi { PlacesAre(tags, e, lo, hi - 1); }
  }

  /** Attribute `a` has text `v`; a C string ends before its first null character. */
  ghost predicate Gives(attrs: seq<P.Attribute>, a: string, v: string) {
    exists i :: 0 <= i < |attrs| && attrs[i].name == a && IsText(attrs[i].value, v)
  }

  ghost predicate IsText(written: string, v: string) {
    v <= written && 0 as char !in v && (|v| < |written| ==> written[|v|] == 0 as char)
  }

  ghost predicate GivesNumber(attrs: seq<P.Attribute>, a: string, num: string -> Option<real>, x: real) {
    exists v :: Gives(attrs, a, v) && num(v) == Some(x)
  }

  /** The last link given is an input. */
  ghost predicate LinksInput(attrs: seq<P.Attribute>) {
    exists i :: 0 <= i < |attrs| && attrs[i] == P.Attribute("link", "input") && forall j :: i < j < |attrs| ==> attrs[j].name != "link"
  }

  ghost predicate UseFrom(t: P.Tag, num: string -> Option<real>, u: Use) {
    && Starts(t, A.Uses) && Gives(t.attrs, "file", u.file) && GivesNumber(t.attrs, "size", num, u.size)
    && (u.input <==> LinksInput(t.attrs))
  }

  /** A job and its files, from its start tag at `p` up to `end`. */
  ghost predicate JobFrom(tags: seq<P.Tag>, num: string -> Option<real>, j: Job, p: nat, end: nat)
    requires end <= |tags|
  {
    && p < end && Starts(tags[p], A.Job) && Gives(tags[p].attrs, "id", j.id) && Gives(tags[p].attrs, "name", j.name)
    && GivesNumber(tags[p].attrs, "runtime", num, j.runtime)
    && var us := Places(tags, A.Uses, p, end);
       |j.uses| == |us| && forall m :: 0 <= m < |us| ==> UseFrom(tags[us[m]], num, j.uses[m])
  }

  ghost predicate ChildFrom(tags: seq<P.Tag>, c: Child, p: nat, end: nat)
    requires end <= |tags|
  {
    && p < end && Starts(tags[p], A.Child) && Gives(tags[p].attrs, "ref", c.ref)
    && var ps := Places(tags, A.Parent, p, end);
       |c.parents| == |ps| && forall m :: 0 <= m < |ps| ==> Gives(tags[ps[m]].attrs, "ref", c.parents[m])
  }

  /** Where what started at place `k` ends. */
  function EndOf(ps: seq<nat>, k: nat, n: nat): nat { if k + 1 < |ps| then ps[k + 1] else n }

  ghost predicate JobsSaid(tags: seq<P.Tag>, n: nat, num: string -> Option<real>, jobs: seq<Job>)
    requires n <= |tags|
  {
    var ps := Places(tags, A.Job, 0, n);
    && |jobs| == |ps| && (forall k :: 0 <= k < |ps| ==> JobFrom(tags, num, jobs[k], ps[k], EndOf(ps, k, n)))
    && (forall u :: u in Places(tags, A.Uses, 0, n) ==> ps != [] && ps[0] < u)
  }

  ghost predicate ChildrenSaid(tags: seq<P.Tag>, n: nat, children: seq<Child>)
    requires n <= |tags|
  {
    var ps := Places(tags, A.Child, 0, n);
    && |children| == |ps| && (forall k :: 0 <= k < |ps| ==> ChildFrom(tags, children[k], ps[k], EndOf(ps, k, n)))
    && (forall p :: p in Places(tags, A.Parent, 0, n) ==> ps != [] && ps[0] < p)
  }

  /** The first `n` tags say `d`: its jobs and children are the elements that start there, in order, each with the
      files or parents that start before the next one. */
  ghost predicate Says(tags: seq<P.Tag>, n: nat, num: string -> Option<real>, d: Dax)
    requires n <= |tags|
  {
    JobsSaid(tags, n, num, d.jobs) && ChildrenSaid(tags, n, d.children)
  }

  /** The version expected, and numbers where numbers are read. */
  ghost predicate NumbersGiven(tags: seq<P.Tag>, num: string -> Option<real>) {
    forall p :: 0 <= p < |tags| ==> TagReadable(tags[p], num)
  }

  ghost predicate TagReadable(t: P.Tag, num: string -> Option<real>) {
    && (Starts(t, A.Adag) ==>
          || GivesNumber(t.attrs, "version", num, 2.1)
          || (num("1.0") == Some(2.1) && forall i :: 0 <= i < |t.attrs| ==> t.attrs[i].name != "version"))
    && (Starts(t, A.Job) ==> exists x :: GivesNumber(t.attrs, "runtime", num, x))
    && (Starts(t, A.Uses) ==> exists x :: GivesNumber(t.attrs, "size", num, x))
  }

  // ----- Attributes as the handlers get them -----

  lemma {:induction false} StoredFrom(e: A.Element, attrs: seq<P.Attribute>, a: string)
    ensures P.Has(attrs, a) ==> exists i :: 0 <= i < |attrs| && attrs[i].name == a && attrs[i].value == P.Stored(e, attrs, a)
    ensures !P.Has(attrs, a) ==> P.Stored(e, attrs, a) == P.Default(e, a)
  {
    if attrs != [] {
      var n := |attrs| - 1;
      assert forall i :: 0 <= i < n ==> attrs[..n][i] == attrs[i];
      StoredFrom(e, attrs[..n], a);
      if P.Has(attrs, a) && attrs[n].name != a {
        assert P.Has(attrs[..n], a);
        var i :| 0 <= i < n && attrs[..n][i].name == a && attrs[..n][i].value == P.Stored(e, attrs[..n], a);
        assert attrs[i].name == a;
      }
    }
  }

  /** The handler gets the text that is given, and no other. */
  lemma GivenText(e: A.Element, attrs: seq<P.Attribute>, a: string, v: string)
    requires a in P.Attributes(e) && !P.Repeats(e, attrs) && P.Has(attrs, a)
    ensures v == P.Values(e, attrs)[a] <==> Gives(attrs, a, v)
  {
    hide P.Attributes, P.Stored, P.T.CString;
    StoredFrom(e, attrs, a);
    var i :| 0 <= i < |attrs| && attrs[i].name == a && attrs[i].value == P.Stored(e, attrs, a);
    forall j | 0 <= j < |attrs| && attrs[j].name == a ensures j == i { }
    P.T.CStringIff(attrs[i].value, v);
  }

  /** Without a text given, the handler gets the default. */
  lemma DefaultText(e: A.Element, attrs: seq<P.Attribute>, a: string)
    requires a in P.Attributes(e) && !P.Has(attrs, a)
    ensures P.Values(e, attrs)[a] == P.Default(e, a)
  {
    NoNull(e, a);
    hide P.Attributes, P.Stored, P.T.CString, P.Default;
    StoredFrom(e, attrs, a);
    P.T.CStringIff(P.Default(e, a), P.Default(e, a));
  }

  lemma NoNull(e: A.Element, a: string)
    ensures 0 as char !in P.Default(e, a)
  {
    var z := 0 as char;
    assert z !in P.Schema && z !in P.Instance && z !in P.Location;
    assert z !in "1.0" && z !in "0.0" && z !in "data";
  }

  lemma GivenNumber(e: A.Element, attrs: seq<P.Attribute>, a: string, num: string -> Option<real>, x: real)
    requires a in P.Attributes(e) && !P.Repeats(e, attrs) && P.Has(attrs, a)
    ensures num(P.Values(e, attrs)[a]) == Some(x) <==> GivesNumber(attrs, a, num, x)
  {
    var w := P.Values(e, attrs)[a];
    hide P.Attributes, P.Repeats, P.Values, Gives;
    forall v ensures v == w <==> Gives(attrs, a, v) { GivenText(e, attrs, a, v); }
  }

  /** The link is an input exactly when the last one given is. */
  lemma {:induction false} GivenLink(attrs: seq<P.Attribute>)
    requires P.Known(A.Uses, attrs)
    ensures "link" in P.Choices(A.Uses, attrs)
    ensures P.Choices(A.Uses, attrs)["link"] == P.Chosen("input") <==> LinksInput(attrs)
  {
    hide P.Choices, P.Known, LinksInput;
    if attrs == [] {
      NoLink();
    } else {
      KnownFront(attrs);
      GivenLink(attrs[..|attrs| - 1]);
      ChoicesLast(attrs);
      LinksLast(attrs);
    }
  }

  lemma NoLink()
    ensures var ch := P.Choices(A.Uses, []); "link" in ch && ch["link"] == P.Unset && !LinksInput([])
  {
  }

  lemma KnownFront(attrs: seq<P.Attribute>)
    requires attrs != [] && P.Known(A.Uses, attrs)
    ensures P.Known(A.Uses, attrs[..|attrs| - 1])
  {
    hide P.Attributes, P.IsOption;
  }

  lemma LinksLast(attrs: seq<P.Attribute>)
    requires attrs != []
    ensures var x := attrs[|attrs| - 1];
            LinksInput(attrs) <==> if x.name == "link" then x.value == "input" else LinksInput(attrs[..|attrs| - 1])
  {
    var n := |attrs| - 1;
    var front := attrs[..n];
    if attrs[n].name != "link" && LinksInput(front) {
      var i :| 0 <= i < n && front[i] == P.Attribute("link", "input") && forall j :: i < j < n ==> front[j].name != "link";
      assert attrs[i] == P.Attribute("link", "input");
    }
    if attrs[n].name == "link" && attrs[n].value == "input" { assert attrs[n] == P.Attribute("link", "input"); }
    if LinksInput(attrs) {
      var i :| 0 <= i <= n && attrs[i] == P.Attribute("link", "input") && forall j :: i < j < |attrs| ==> attrs[j].name != "link";
      if i < n { assert front[i] == P.Attribute("link", "input"); }
    }
  }

  lemma ChoicesLast(attrs: seq<P.Attribute>)
    requires attrs != [] && P.Known(A.Uses, attrs) && "link" in P.Choices(A.Uses, attrs[..|attrs| - 1])
    ensures var x := attrs[|attrs| - 1];
            && "link" in P.Choices(A.Uses, attrs)
            && P.Choices(A.Uses, attrs)["link"] == if x.name == "link" then P.Chosen(x.value) else P.Choices(A.Uses, attrs[..|attrs| - 1])["link"]
  {
    hide P.Attributes, P.IsOption;
    LinkIsChoice();
    var x := attrs[|attrs| - 1];
    assert x.name in P.Attributes(A.Uses) || P.IsOption(A.Uses, x);
  }

  lemma LinkIsChoice()
    ensures "link" !in P.Attributes(A.Uses)
  {
    P.TextIff(A.Uses, "link");
  }

  // ----- The tags say one document only -----

  ghost predicate ProperTags(tags: seq<P.Tag>) {
    forall p :: 0 <= p < |tags| && (tags[p].Begin? || tags[p].Empty?) ==> P.Proper(tags[p].e, tags[p].attrs)
  }

  lemma TextOnce(t: P.Tag, a: string, v: string, w: string)
    requires (t.Begin? || t.Empty?) && P.Proper(t.e, t.attrs) && a in P.Attributes(t.e) && Gives(t.attrs, a, v) && Gives(t.attrs, a, w)
    ensures v == w
  {
    hide P.Attributes, P.Known, P.Required;
    assert P.Has(t.attrs, a);
    hide P.Repeats, P.Has, Gives;
    GivenText(t.e, t.attrs, a, v);
    GivenText(t.e, t.attrs, a, w);
  }

  lemma NumberOnce(t: P.Tag, a: string, num: string -> Option<real>, x: real, y: real)
    requires (t.Begin? || t.Empty?) && P.Proper(t.e, t.attrs) && a in P.Attributes(t.e)
    requires GivesNumber(t.attrs, a, num, x) && GivesNumber(t.attrs, a, num, y)
    ensures x == y
  {
    hide P.Attributes, P.Proper, Gives;
    var v :| Gives(t.attrs, a, v) && num(v) == Some(x);
    var w :| Gives(t.attrs, a, w) && num(w) == Some(y);
    TextOnce(t, a, v, w);
  }

  lemma UseOnce(t: P.Tag, num: string -> Option<real>, u: Use, w: Use)
    requires UseFrom(t, num, u) && UseFrom(t, num, w) && P.Proper(t.e, t.attrs)
    ensures u == w
  {
    hide P.Proper, Gives, GivesNumber, LinksInput;
    TextOnce(t, "file", u.file, w.file);
    NumberOnce(t, "size", num, u.size, w.size);
  }

  lemma JobOnce(tags: seq<P.Tag>, num: string -> Option<real>, j: Job, k: Job, p: nat, end: nat)
    requires end <= |tags| && ProperTags(tags) && JobFrom(tags, num, j, p, end) && JobFrom(tags, num, k, p, end)
    ensures j == k
  {
    hide P.Proper, Gives, GivesNumber, Places, UseFrom;
    TextOnce(tags[p], "id", j.id, k.id);
    TextOnce(tags[p], "name", j.name, k.name);
    NumberOnce(tags[p], "runtime", num, j.runtime, k.runtime);
    var us := Places(tags, A.Uses, p, end);
    forall m | 0 <= m < |us| ensures j.uses[m] == k.uses[m] { UseOnce(tags[us[m]], num, j.uses[m], k.uses[m]); }
    assert j.uses == k.uses;
  }

  lemma ChildOnce(tags: seq<P.Tag>, c: Child, b: Child, p: nat, end: nat)
    requires end <= |tags| && ProperTags(tags) && ChildFrom(tags, c, p, end) && ChildFrom(tags, b, p, end)
    ensures c == b
  {
    hide P.Proper, Gives, Places;
    TextOnce(tags[p], "ref", c.ref, b.ref);
    var ps := Places(tags, A.Parent, p, end);
    forall m | 0 <= m < |ps| ensures c.parents[m] == b.parents[m] { TextOnce(tags[ps[m]], "ref", c.parents[m], b.parents[m]); }
    assert c.parents == b.parents;
  }

  /** Proper tags say at most one document. */
  lemma SaysOnce(tags: seq<P.Tag>, n: nat, num: string -> Option<real>, d: Dax, b: Dax)
    requires n <= |tags| && ProperTags(tags) && Says(tags, n, num, d) && Says(tags, n, num, b)
    ensures d == b
  {
    hide ProperTags, JobFrom, ChildFrom, Places;
    var js, cs := Places(tags, A.Job, 0, n), Places(tags, A.Child, 0, n);
    forall k | 0 <= k < |js| ensures d.jobs[k] == b.jobs[k] { JobOnce(tags, num, d.jobs[k], b.jobs[k], js[k], EndOf(js, k, n)); }
    forall k | 0 <= k < |cs| ensures d.children[k] == b.children[k] { ChildOnce(tags, d.children[k], b.children[k], cs[k], EndOf(cs, k, n)); }
    assert d.jobs == b.jobs && d.children == b.children;
  }

  // ----- One more tag -----

  lemma PlacesNext(tags: seq<P.Tag>, e: A.Element, lo: nat, n: nat)
    requires lo <= n < |tags|
    ensures Places(tags, e, lo, n + 1) == Places(tags, e, lo, n) + if Starts(tags[n], e) then [n] else []
  {
  }

  lemma NoPlaces(tags: seq<P.Tag>, e: A.Element, n: nat)
    requires n <= |tags|
    ensures Places(tags, e, n, n) == []
  {
  }

  lemma OneElement(t: P.Tag, e: A.Element)
    requires Starts(t, e)
    ensures forall f :: f != e ==> !Starts(t, f)
  {
  }

  lemma JobStart(tags: seq<P.Tag>, num: string -> Option<real>, j: Job, p: nat, end: nat)
    requires end <= |tags| && JobFrom(tags, num, j, p, end)
    ensures Starts(tags[p], A.Job) && !Starts(tags[p], A.Uses)
  {
  }

  lemma UseStart(t: P.Tag, num: string -> Option<real>, u: Use)
    requires UseFrom(t, num, u)
    ensures Starts(t, A.Uses) && !Starts(t, A.Job)
  {
  }

  lemma ChildStart(tags: seq<P.Tag>, c: Child, p: nat, end: nat)
    requires end <= |tags| && ChildFrom(tags, c, p, end)
    ensures Starts(tags[p], A.Child) && !Starts(tags[p], A.Parent)
  {
  }

  lemma JobStays(tags: seq<P.Tag>, num: string -> Option<real>, j: Job, p: nat, n: nat)
    requires n < |tags| && JobFrom(tags, num, j, p, n) && !Starts(tags[n], A.Uses)
    ensures JobFrom(tags, num, j, p, n + 1)
  {
    hide UseFrom, Gives, GivesNumber, Places;
    PlacesNext(tags, A.Uses, p, n);
  }

  lemma JobGrows(tags: seq<P.Tag>, num: string -> Option<real>, j: Job, p: nat, n: nat, u: Use)
    requires n < |tags| && JobFrom(tags, num, j, p, n) && UseFrom(tags[n], num, u)
    ensures JobFrom(tags, num, j.(uses := j.uses + [u]), p, n + 1)
  {
    PlacesNext(tags, A.Uses, p, n);
    hide Gives, GivesNumber, Places, LinksInput;
  }

  lemma ChildStays(tags: seq<P.Tag>, c: Child, p: nat, n: nat)
    requires n < |tags| && ChildFrom(tags, c, p, n) && !Starts(tags[n], A.Parent)
    ensures ChildFrom(tags, c, p, n + 1)
  {
    hide Gives, Places;
    PlacesNext(tags, A.Parent, p, n);
  }

  lemma ChildGrows(tags: seq<P.Tag>, c: Child, p: nat, n: nat, ref: string)
    requires n < |tags| && ChildFrom(tags, c, p, n) && Starts(tags[n], A.Parent) && Gives(tags[n].attrs, "ref", ref)
    ensures ChildFrom(tags, c.(parents := c.parents + [ref]), p, n + 1)
  {
    PlacesNext(tags, A.Parent, p, n);
    hide Gives, Places;
  }

  lemma JobsStay(tags: seq<P.Tag>, n: nat, num: string -> Option<real>, jobs: seq<Job>)
    requires n < |tags| && JobsSaid(tags, n, num, jobs) && !Starts(tags[n], A.Job) && !Starts(tags[n], A.Uses)
    ensures JobsSaid(tags, n + 1, num, jobs)
  {
    hide JobFrom, Places;
    PlacesNext(tags, A.Job, 0, n);
    PlacesNext(tags, A.Uses, 0, n);
    var ps := Places(tags, A.Job, 0, n);
    forall k | 0 <= k < |ps| ensures JobFrom(tags, num, jobs[k], ps[k], EndOf(ps, k, n + 1)) {
      if k + 1 == |ps| { JobStays(tags, num, jobs[k], ps[k], n); }
    }
  }

  lemma JobsGrow(tags: seq<P.Tag>, n: nat, num: string -> Option<real>, jobs: seq<Job>, j: Job)
    requires n < |tags| && JobsSaid(tags, n, num, jobs) && JobFrom(tags, num, j, n, n + 1)
    ensures JobsSaid(tags, n + 1, num, jobs + [j])
  {
    hide JobFrom, Places, Starts;
    JobStart(tags, num, j, n, n + 1);
    PlacesNext(tags, A.Job, 0, n);
    PlacesNext(tags, A.Uses, 0, n);
    var ps, ps' := Places(tags, A.Job, 0, n), Places(tags, A.Job, 0, n + 1);
    forall k | 0 <= k < |ps'| ensures JobFrom(tags, num, (jobs + [j])[k], ps'[k], EndOf(ps', k, n + 1)) {
      assert k < |ps| ==> EndOf(ps', k, n + 1) == EndOf(ps, k, n);
    }
  }

  lemma UsesGrow(tags: seq<P.Tag>, n: nat, num: string -> Option<real>, jobs: seq<Job>, u: Use)
    requires n < |tags| && JobsSaid(tags, n, num, jobs) && jobs != [] && UseFrom(tags[n], num, u)
    ensures var j := jobs[|jobs| - 1]; JobsSaid(tags, n + 1, num, jobs[..|jobs| - 1] + [j.(uses := j.uses + [u])])
  {
    hide JobFrom, Places, UseFrom, Starts;
    UseStart(tags[n], num, u);
    PlacesNext(tags, A.Job, 0, n);
    PlacesNext(tags, A.Uses, 0, n);
    var ps, m := Places(tags, A.Job, 0, n), |jobs| - 1;
    var jobs' := jobs[..m] + [jobs[m].(uses := jobs[m].uses + [u])];
    JobGrows(tags, num, jobs[m], ps[m], n, u);
    forall k | 0 <= k < |ps| ensures JobFrom(tags, num, jobs'[k], ps[k], EndOf(ps, k, n + 1)) {
      assert k < m ==> EndOf(ps, k, n + 1) == EndOf(ps, k, n);
    }
  }

  lemma ChildrenStay(tags: seq<P.Tag>, n: nat, children: seq<Child>)
    requires n < |tags| && ChildrenSaid(tags, n, children) && !Starts(tags[n], A.Child) && !Starts(tags[n], A.Parent)
    ensures ChildrenSaid(tags, n + 1, children)
  {
    hide ChildFrom, Places;
    PlacesNext(tags, A.Child, 0, n);
    PlacesNext(tags, A.Parent, 0, n);
    var ps := Places(tags, A.Child, 0, n);
    forall k | 0 <= k < |ps| ensures ChildFrom(tags, children[k], ps[k], EndOf(ps, k, n + 1)) {
      if k + 1 == |ps| { ChildStays(tags, children[k], ps[k], n); }
    }
  }

  lemma ChildrenGrow(tags: seq<P.Tag>, n: nat, children: seq<Child>, c: Child)
    requires n < |tags| && ChildrenSaid(tags, n, children) && ChildFrom(tags, c, n, n + 1)
    ensures ChildrenSaid(tags, n + 1, children + [c])
  {
    hide ChildFrom, Places, Starts;
    ChildStart(tags, c, n, n + 1);
    PlacesNext(tags, A.Child, 0, n);
    PlacesNext(tags, A.Parent, 0, n);
    var ps, ps' := Places(tags, A.Child, 0, n), Places(tags, A.Child, 0, n + 1);
    forall k | 0 <= k < |ps'| ensures ChildFrom(tags, (children + [c])[k], ps'[k], EndOf(ps', k, n + 1)) {
      assert k < |ps| ==> EndOf(ps', k, n + 1) == EndOf(ps, k, n);
    }
  }

  lemma ParentsGrow(tags: seq<P.Tag>, n: nat, children: seq<Child>, ref: string)
    requires n < |tags| && ChildrenSaid(tags, n, children) && children != []
    requires Starts(tags[n], A.Parent) && Gives(tags[n].attrs, "ref", ref)
    ensures var c := children[|children| - 1]; ChildrenSaid(tags, n + 1, children[..|children| - 1] + [c.(parents := c.parents + [ref])])
  {
    hide ChildFrom, Places, Gives, Starts;
    OneElement(tags[n], A.Parent);
    PlacesNext(tags, A.Child, 0, n);
    PlacesNext(tags, A.Parent, 0, n);
    var ps, m := Places(tags, A.Child, 0, n), |children| - 1;
    var children' := children[..m] + [children[m].(parents := children[m].parents + [ref])];
    ChildGrows(tags, children[m], ps[m], n, ref);
    forall k | 0 <= k < |ps| ensures ChildFrom(tags, children'[k], ps[k], EndOf(ps, k, n + 1)) {
      assert k < m ==> EndOf(ps, k, n + 1) == EndOf(ps, k, n);
    }
  }
}
