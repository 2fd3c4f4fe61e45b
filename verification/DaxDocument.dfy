/** From the tags of a DAX document to the graph that the loader builds of it. */
module DaxDocument {
  import opened Common
  import opened Graphs
  import opened DaxGraph
  import opened DaxReader
  import opened DaxExpansion
  import opened DaxLoader
  import opened DaxTags
  import A = DaxAutomaton
  import P = DaxProcessor

  // ----- Handler calls as the loader understands them -----

  function Get(values: map<string, string>, a: string): string { if a in values then values[a] else "" }

  function Number(text: string, num: string -> Option<real>): real { if num(text).Some? then num(text).value else 0.0 }

  /** What a call of the processor means to the loader; `num` reads numbers. A file without a link is an output. */
  function HandledBy(c: P.Call, num: string -> Option<real>): seq<Handled> {
    match c
    case StartCall(e, v, ch) =>
      (match e
       case Adag => [OnAdag(Number(Get(v, "version"), num))]
       case Job => [OnJob(Get(v, "id"), Get(v, "name"), Number(Get(v, "runtime"), num))]
       case Uses => [OnUse(Use(Get(v, "file"), Number(Get(v, "size"), num), "link" in ch && ch["link"] == P.Chosen("input")))]
       case Child => [OnChild(Get(v, "ref"))]
       case Parent => [OnParent(Get(v, "ref"))])
    case EndCall(e) => if e == A.Job then [OnJobEnd] else if e == A.Child then [OnChildEnd] else []
  }

  /** The handler reads its numbers, and a version it knows. */
  predicate Readable(c: P.Call, num: string -> Option<real>) {
    c.StartCall? ==>
      match c.e
      case Adag => num(Get(c.values, "version")) == Some(2.1)
      case Job => num(Get(c.values, "runtime")).Some?
      case Uses => num(Get(c.values, "size")).Some?
      case _ => true
  }

  predicate AllReadable(calls: seq<P.Call>, num: string -> Option<real>) {
    forall i :: 0 <= i < |calls| ==> Readable(calls[i], num)
  }

  function HandledAll(calls: seq<P.Call>, num: string -> Option<real>): seq<Handled> {
    if calls == [] then [] else HandledAll(calls[..|calls| - 1], num) + HandledBy(calls[|calls| - 1], num)
  }

  lemma {:induction false} HandledConcat(a: seq<P.Call>, b: seq<P.Call>, num: string -> Option<real>)
    ensures HandledAll(a + b, num) == HandledAll(a, num) + HandledAll(b, num)
  {
    hide HandledBy;
    if b == [] {
      assert a + b == a;
    } else {
      assert (a + b)[..|a + b| - 1] == a + b[..|b| - 1];
      HandledConcat(a, b[..|b| - 1], num);
    }
  }

  /** The document that handler calls describe. */
  function Describe(d: Dax, h: Handled): Dax {
    match h
    case OnJob(id, name, runtime) => AddJob(d, id, name, runtime)
    case OnUse(u) => if d.jobs == [] then d else AddUse(d, u)
    case OnChild(ref) => AddChild(d, ref)
    case OnParent(ref) => if d.children == [] then d else AddParent(d, ref)
    case _ => d
  }

  function Built(hs: seq<Handled>): Dax {
    if hs == [] then Dax([], []) else Describe(Built(hs[..|hs| - 1]), hs[|hs| - 1])
  }

  function HandledTags(tags: seq<P.Tag>, num: string -> Option<real>): seq<Handled> { HandledAll(P.Calls(tags), num) }

  function DaxOf(tags: seq<P.Tag>, num: string -> Option<real>): Dax { Built(HandledTags(tags, num)) }

  // ----- How a document grows, call by call -----

  lemma BuiltNext(hs: seq<Handled>, h: Handled)
    ensures Built(hs + [h]) == Describe(Built(hs), h)
  {
    assert (hs + [h])[..|hs|] == hs;
  }

  lemma AddJobCalls(d: Dax, id: string, name: string, runtime: real)
    requires d.children == []
    ensures DocCalls(AddJob(d, id, name, runtime)) == DocCalls(d) + [OnJob(id, name, runtime), OnJobEnd]
  {
    var jobs := d.jobs + [Job(id, name, runtime, [])];
    assert jobs[..|d.jobs|] == d.jobs;
    assert JobCalls(Job(id, name, runtime, [])) == [OnJob(id, name, runtime), OnJobEnd];
  }

  lemma AddUseCalls(d: Dax, u: Use, hs: seq<Handled>)
    requires d.jobs != [] && d.children == [] && hs + [OnJobEnd] == DocCalls(d)
    ensures hs + [OnUse(u), OnJobEnd] == DocCalls(AddUse(d, u))
  {
    var n := |d.jobs| - 1;
    var front, job := d.jobs[..n], d.jobs[n];
    var job' := job.(uses := job.uses + [u]);
    assert (front + [job'])[..n] == front;
    assert UseCalls(job'.uses) == UseCalls(job.uses) + [OnUse(u)];
    var start := JobsCalls(front) + [OnJob(job.id, job.name, job.runtime)] + UseCalls(job.uses);
    assert DocCalls(d) == start + [OnJobEnd];
    assert hs == DocCalls(d)[..|hs|] == start;
    assert DocCalls(AddUse(d, u)) == start + [OnUse(u)] + [OnJobEnd];
  }

  lemma AddChildCalls(d: Dax, ref: string)
    ensures DocCalls(AddChild(d, ref)) == DocCalls(d) + [OnChild(ref), OnChildEnd]
  {
    var children := d.children + [Child(ref, [])];
    assert children[..|d.children|] == d.children;
    assert ChildCalls(Child(ref, [])) == [OnChild(ref), OnChildEnd];
  }

  lemma AddParentCalls(d: Dax, ref: string, hs: seq<Handled>)
    requires d.children != [] && hs + [OnChildEnd] == DocCalls(d)
    ensures hs + [OnParent(ref), OnChildEnd] == DocCalls(AddParent(d, ref))
  {
    var n := |d.children| - 1;
    var front, c := d.children[..n], d.children[n];
    var c' := c.(parents := c.parents + [ref]);
    var start := JobsCalls(d.jobs) + ChildrenCalls(front) + [OnChild(c.ref)] + ParentCalls(c.parents);
    assert d.children == front + [c];
    LastChildCalls(d.jobs, front, c);
    LastChildCalls(d.jobs, front, c');
    assert ParentCalls(c'.parents) == ParentCalls(c.parents) + [OnParent(ref)];
    hide DocCalls, JobsCalls, ChildrenCalls, ParentCalls;
    assert hs == (hs + [OnChildEnd])[..|hs|] == start;
    assert AddParent(d, ref) == Dax(d.jobs, front + [c']);
  }

  lemma LastChildCalls(jobs: seq<Job>, front: seq<Child>, c: Child)
    ensures DocCalls(Dax(jobs, front + [c])) ==
            JobsCalls(jobs) + ChildrenCalls(front) + [OnChild(c.ref)] + ParentCalls(c.parents) + [OnChildEnd]
  {
    assert (front + [c])[..|front|] == front;
    hide JobsCalls, ParentCalls;
  }

  // ----- Calls by start condition -----

  /** The calls after that of the root element. */
  ghost predicate Led(hs: seq<Handled>) { hs != [] && hs[0].OnAdag? }

  ghost predicate Whole(hs: seq<Handled>) { Led(hs) && hs[1..] == DocCalls(Built(hs)) }

  ghost predicate JobsOnly(hs: seq<Handled>) { Whole(hs) && Built(hs).children == [] }

  ghost predicate InJob(hs: seq<Handled>) {
    Led(hs) && Built(hs).jobs != [] && Built(hs).children == [] && hs[1..] + [OnJobEnd] == DocCalls(Built(hs))
  }

  ghost predicate InChild(hs: seq<Handled>) {
    Led(hs) && Built(hs).children != [] && hs[1..] + [OnChildEnd] == DocCalls(Built(hs))
  }

  lemma LedNext(hs: seq<Handled>, h: Handled)
    requires Led(hs)
    ensures Led(hs + [h]) && (hs + [h])[1..] == hs[1..] + [h] && Built(hs + [h]) == Describe(Built(hs), h)
    ensures forall x :: hs[1..] + [h] + [x] == hs[1..] + [h, x]
  {
    BuiltNext(hs, h);
  }

  lemma JobStarts(hs: seq<Handled>, h: Handled)
    requires JobsOnly(hs) && h.OnJob?
    ensures InJob(hs + [h])
  {
    LedNext(hs, h);
    AddJobCalls(Built(hs), h.id, h.name, h.runtime);
    hide DocCalls, Built;
  }

  lemma UseRead(hs: seq<Handled>, h: Handled)
    requires InJob(hs) && h.OnUse?
    ensures InJob(hs + [h])
  {
    LedNext(hs, h);
    AddUseCalls(Built(hs), h.u, hs[1..]);
    hide DocCalls, Built;
  }

  lemma JobEnds(hs: seq<Handled>)
    requires InJob(hs)
    ensures JobsOnly(hs + [OnJobEnd])
  {
    LedNext(hs, OnJobEnd);
  }

  lemma ChildStarts(hs: seq<Handled>, h: Handled)
    requires Whole(hs) && h.OnChild?
    ensures InChild(hs + [h])
  {
    LedNext(hs, h);
    AddChildCalls(Built(hs), h.ref);
    hide DocCalls, Built;
  }

  lemma ParentRead(hs: seq<Handled>, h: Handled)
    requires InChild(hs) && h.OnParent?
    ensures InChild(hs + [h])
  {
    LedNext(hs, h);
    AddParentCalls(Built(hs), h.ref, hs[1..]);
    hide DocCalls, Built;
  }

  lemma ChildEnds(hs: seq<Handled>)
    requires InChild(hs)
    ensures Whole(hs + [OnChildEnd])
  {
    LedNext(hs, OnChildEnd);
  }

  lemma NothingYet(h: Handled)
    requires h.OnAdag?
    ensures JobsOnly([h])
  {
    BuiltNext([], h);
    assert [] + [h] == [h];
  }

  lemma JobsWhole(hs: seq<Handled>)
    ensures JobsOnly(hs) ==> Whole(hs)
  {
  }

  /** Between elements the calls are those of the document so far; inside a job or a child its end is missing. */
  ghost predicate InStep(q: A.Start, hs: seq<Handled>) {
    match q
    case Prolog => hs == []
    case Root => hs == []
    case Epilog => Whole(hs)
    case AttributeList(_) => false
    case In(e, k) =>
      (match e
       case Adag => if k == 5 then Whole(hs) else JobsOnly(hs)
       case Job => InJob(hs)
       case Child => InChild(hs)
       case _ => false)
    case End(e) =>
      (match e
       case Uses => InJob(hs)
       case Parent => InChild(hs)
       case _ => false)
  }

  /** Where an element leaves the automaton. */
  function Outside(e: A.Element): A.Start {
    match e
    case Adag => A.Epilog
    case Job => A.In(A.Adag, 3)
    case Child => A.In(A.Adag, 5)
    case Uses => A.In(A.Job, 2)
    case Parent => A.In(A.Child, 2)
  }

  lemma StartStep(q: A.Start, hs: seq<Handled>, c: P.Call, num: string -> Option<real>)
    requires InStep(q, hs) && c.StartCall? && A.Allowed(c.e, q)
    ensures InStep(A.Inside(c.e), hs + HandledBy(c, num))
  {
    hide JobsOnly, Whole, InJob, InChild;
    JobsWhole(hs);
    match c.e
    case Adag =>
      NothingYet(HandledBy(c, num)[0]);
      assert hs + HandledBy(c, num) == HandledBy(c, num);
    case Job => JobStarts(hs, HandledBy(c, num)[0]);
    case Uses => UseRead(hs, HandledBy(c, num)[0]);
    case Child => ChildStarts(hs, HandledBy(c, num)[0]);
    case Parent => ParentRead(hs, HandledBy(c, num)[0]);
  }

  lemma EndStep(q: A.Start, hs: seq<Handled>, e: A.Element, num: string -> Option<real>)
    requires InStep(q, hs) && A.Closable(q, e)
    ensures InStep(Outside(e), hs + HandledBy(P.EndCall(e), num))
  {
    hide JobsOnly, Whole, InJob, InChild;
    JobsWhole(hs);
    match e
    case Job => JobEnds(hs);
    case Child => ChildEnds(hs);
    case _ => assert hs + [] == hs;
  }

  // ----- Whole documents -----

  /** The start conditions before and after one event. */
  lemma StartsAround(es: seq<A.Event>, ev: A.Event)
    requires A.Run(A.Initial, es).Running? && A.Next(A.Run(A.Initial, es).s, ev).Running?
    ensures var q, q' := A.Run(A.Initial, es).s.start, A.Next(A.Run(A.Initial, es).s, ev).s.start;
            match ev
            case Declaration => q == A.Prolog && q' == A.Root
            case STag(e) => A.Allowed(e, q) && q' == A.Inside(e)
            case ShortTag(e) => A.Allowed(e, q) && q' == Outside(e)
            case ETag(e) => A.Closable(q, e) && q' == Outside(e)
            case Junk => false
  {
    var s := A.Run(A.Initial, es).s;
    A.NextNeeds(s, ev);
    if ev.STag? || ev.ShortTag? { A.OpenIs(s, ev.e); }
    if ev.ETag? {
      var p := A.Reached(es);
      A.NotRejected(p, ev);
      ClosesOwn(p.open, ev.e);
      A.Nesting(p.open);
    }
  }

  /** The innermost open element was allowed where it started. */
  lemma ClosesOwn(fs: seq<A.Frame>, e: A.Element)
    requires A.Good(fs) && fs != [] && A.Closable(A.Top(fs), e)
    ensures var s := A.StateOf(fs); s.stack != [] && A.Allowed(e, s.stack[|s.stack| - 1])
  {
    var f := fs[|fs| - 1];
    A.PhaseInside(f.e, A.Names(f.kids));
  }

  lemma {:induction false} CallsInStep(tags: seq<P.Tag>, num: string -> Option<real>)
    requires A.Run(A.Initial, P.Events(tags)).Running?
    ensures InStep(A.Run(A.Initial, P.Events(tags)).s.start, HandledTags(tags, num))
  {
    if tags != [] {
      var n := |tags| - 1;
      var before, t := tags[..n], tags[n];
      assert tags == tags[..n + 1];
      var es := P.Events(tags);
      assert es[..|es| - 1] == P.Events(before) && es[n] == P.EventOf(t);
      CallsInStep(before, num);
      var s := A.Run(A.Initial, P.Events(before)).s;
      P.MoreEvents(tags, n, s);
      StartsAround(P.Events(before), P.EventOf(t));
      HandledConcat(P.Calls(before), P.CallsOf(t), num);
      TagStep(s.start, HandledTags(before, num), t, num);
    }
  }

  lemma TagStep(q: A.Start, hs: seq<Handled>, t: P.Tag, num: string -> Option<real>)
    requires InStep(q, hs)
    ensures var hs' := hs + HandledAll(P.CallsOf(t), num);
            match P.EventOf(t)
            case Declaration => q == A.Prolog ==> InStep(A.Root, hs')
            case STag(e) => A.Allowed(e, q) ==> InStep(A.Inside(e), hs')
            case ShortTag(e) => A.Allowed(e, q) ==> InStep(Outside(e), hs')
            case ETag(e) => A.Closable(q, e) ==> InStep(Outside(e), hs')
            case Junk => true
  {
    hide InStep, P.Values, P.Choices, P.Proper, HandledBy, A.Allowed, Outside;
    match t
    case Declare => Opening(q, hs);
    case Begin(e, attrs) =>
      var c := P.StartCall(e, P.Values(e, attrs), P.Choices(e, attrs));
      HandledOne(c, num);
      if A.Allowed(e, q) { StartStep(q, hs, c, num); }
    case Empty(e, attrs) =>
      var c, d := P.StartCall(e, P.Values(e, attrs), P.Choices(e, attrs)), P.EndCall(e);
      HandledOne(c, num);
      HandledOne(d, num);
      HandledConcat([c], [d], num);
      assert [c] + [d] == P.CallsOf(t);
      if A.Allowed(e, q) {
        StartStep(q, hs, c, num);
        EndStep(A.Inside(e), hs + HandledBy(c, num), e, num);
        assert hs + HandledBy(c, num) + HandledBy(d, num) == hs + (HandledBy(c, num) + HandledBy(d, num));
      }
    case Finish(e) =>
      HandledOne(P.EndCall(e), num);
      if A.Closable(q, e) { EndStep(q, hs, e, num); }
    case Other =>
  }

  lemma Opening(q: A.Start, hs: seq<Handled>)
    requires InStep(q, hs)
    ensures q == A.Prolog ==> InStep(A.Root, hs + [])
  {
    assert hs + [] == hs;
  }

  lemma HandledOne(c: P.Call, num: string -> Option<real>)
    ensures HandledAll([c], num) == HandledBy(c, num)
  {
    assert [c][..0] == [];
  }

  /** The handler calls of an accepted document are that of the root element, if there is one, and then exactly those
      of the document that they describe: jobs with their files first, then children with their parents. */
  lemma DocumentCalls(tags: seq<P.Tag>, num: string -> Option<real>)
    requires A.Document(P.Events(tags))
    ensures var hs := HandledTags(tags, num);
            (hs == [] && DaxOf(tags, num) == Dax([], [])) || (Led(hs) && hs[1..] == DocCalls(DaxOf(tags, num)))
  {
    A.AcceptsIffDocument(P.Events(tags));
    CallsInStep(tags, num);
    EndsOutside(P.Events(tags));
    assert Built([]) == Dax([], []);
    hide DocCalls, Built;
  }

  lemma EndsOutside(es: seq<A.Event>)
    requires A.Accepts(es)
    ensures A.Run(A.Initial, es).s.start == A.Epilog || A.Run(A.Initial, es).s.start == A.Root
  {
    var p := A.Reached(es);
    hide A.Run;
    if p.Within? && p.open != [] { A.PhaseIs(p.open[|p.open| - 1].e, A.Names(p.open[|p.open| - 1].kids)); }
  }

  // ----- The document described, by the places of its tags -----

  function StartOf(t: P.Tag): P.Call
    requires t.Begin? || t.Empty?
  {
    P.StartCall(t.e, P.Values(t.e, t.attrs), P.Choices(t.e, t.attrs))
  }

  /** Only start tags change the document. */
  lemma DaxNext(tags: seq<P.Tag>, t: P.Tag, num: string -> Option<real>)
    ensures DaxOf(tags + [t], num) ==
            if t.Begin? || t.Empty? then Describe(DaxOf(tags, num), HandledBy(StartOf(t), num)[0]) else DaxOf(tags, num)
  {
    hide P.Values, P.Choices, Describe, Built, HandledBy, HandledAll;
    assert (tags + [t])[..|tags|] == tags;
    var hs := HandledTags(tags, num);
    HandledConcat(P.Calls(tags), P.CallsOf(t), num);
    HandledOf(t, num);
    match t {
      case Begin(_, _) => StartRead(hs, StartOf(t), num);
      case Empty(e, _) =>
        StartRead(hs, StartOf(t), num);
        EndsUnread(hs + HandledBy(StartOf(t), num), e, num);
        assert hs + (HandledBy(StartOf(t), num) + HandledBy(P.EndCall(e), num)) == hs + HandledBy(StartOf(t), num) + HandledBy(P.EndCall(e), num);
      case Finish(e) => EndsUnread(hs, e, num);
      case _ => assert hs + [] == hs;
    }
  }

  lemma StartRead(hs: seq<Handled>, c: P.Call, num: string -> Option<real>)
    requires c.StartCall?
    ensures |HandledBy(c, num)| == 1 && Built(hs + HandledBy(c, num)) == Describe(Built(hs), HandledBy(c, num)[0])
  {
    BuiltNext(hs, HandledBy(c, num)[0]);
    assert [HandledBy(c, num)[0]] == HandledBy(c, num);
    hide Built, Describe;
  }

  lemma HandledOf(t: P.Tag, num: string -> Option<real>)
    ensures HandledAll(P.CallsOf(t), num) ==
            match t
            case Begin(_, _) => HandledBy(StartOf(t), num)
            case Empty(e, _) => HandledBy(StartOf(t), num) + HandledBy(P.EndCall(e), num)
            case Finish(e) => HandledBy(P.EndCall(e), num)
            case _ => []
  {
    hide P.Values, P.Choices, HandledBy;
    match t {
      case Begin(_, _) => HandledOne(StartOf(t), num);
      case Empty(e, _) =>
        HandledOne(StartOf(t), num);
        HandledOne(P.EndCall(e), num);
        HandledConcat([StartOf(t)], [P.EndCall(e)], num);
        assert [StartOf(t)] + [P.EndCall(e)] == P.CallsOf(t);
      case Finish(e) => HandledOne(P.EndCall(e), num);
      case _ =>
    }
  }

  lemma EndsUnread(hs: seq<Handled>, e: A.Element, num: string -> Option<real>)
    ensures Built(hs + HandledBy(P.EndCall(e), num)) == Built(hs)
  {
    if e == A.Job { BuiltNext(hs, OnJobEnd); } else if e == A.Child { BuiltNext(hs, OnChildEnd); } else { assert hs + [] == hs; }
  }

  /** A file is read inside a job and a parent inside a child. */
  lemma ReadInside(q: A.Start, hs: seq<Handled>, e: A.Element)
    requires InStep(q, hs) && A.Allowed(e, q)
    ensures e == A.Uses ==> Built(hs).jobs != []
    ensures e == A.Parent ==> Built(hs).children != []
  {
  }

  /** What the first tags make of the document is what they say. */
  lemma {:induction false} TagsSay(tags: seq<P.Tag>, n: nat, num: string -> Option<real>)
    requires n <= |tags| && A.Run(A.Initial, P.Events(tags[..n])).Running? && AllReadable(P.Calls(tags[..n]), num)
    ensures Says(tags, n, num, DaxOf(tags[..n], num))
  {
    hide Says, DaxOf, A.Run, P.Calls, P.Events, P.EventOf, AllReadable, Readable, P.Proper;
    if n == 0 {
      NothingSaid(tags, num);
    } else {
      RunFront(tags, n);
      ReadableFront(tags, n, num);
      TagsSay(tags, n - 1, num);
      SaysNext(tags, n, num);
    }
  }

  lemma SaysNext(tags: seq<P.Tag>, n: nat, num: string -> Option<real>)
    requires 0 < n <= |tags| && A.Run(A.Initial, P.Events(tags[..n])).Running? && AllReadable(P.Calls(tags[..n]), num)
    requires Says(tags, n - 1, num, DaxOf(tags[..n - 1], num))
    ensures Says(tags, n, num, DaxOf(tags[..n], num))
  {
    hide Says, DaxOf, Describe, StartOf, HandledBy, A.Run, P.Calls, P.Events, P.EventOf, AllReadable, Readable, P.Proper;
    var before, t := tags[..n - 1], tags[n - 1];
    RunFront(tags, n);
    ReadableFront(tags, n, num);
    DaxNext(before, t, num);
    assert tags[..n] == before + [t];
    var d := DaxOf(before, num);
    if t.Begin? || t.Empty? {
      TagInside(tags, n, num);
      TagSays(tags, n - 1, num, d);
    } else {
      TagSilent(tags, n - 1, num, d);
    }
  }

  lemma TagInside(tags: seq<P.Tag>, n: nat, num: string -> Option<real>)
    requires 0 < n <= |tags| && A.Run(A.Initial, P.Events(tags[..n])).Running? && A.Run(A.Initial, P.Events(tags[..n - 1])).Running?
    requires tags[n - 1].Begin? || tags[n - 1].Empty?
    ensures tags[n - 1].e == A.Uses ==> DaxOf(tags[..n - 1], num).jobs != []
    ensures tags[n - 1].e == A.Parent ==> DaxOf(tags[..n - 1], num).children != []
  {
    hide InStep, A.Allowed, HandledBy, Built, A.Run, A.Next, P.Calls, P.Proper;
    var before, t := tags[..n - 1], tags[n - 1];
    var s := A.Run(A.Initial, P.Events(before)).s;
    CallsInStep(before, num);
    P.MoreEvents(tags, n - 1, s);
    StartsAround(P.Events(before), P.EventOf(t));
    ReadInside(s.start, HandledTags(before, num), t.e);
  }

  lemma RunFront(tags: seq<P.Tag>, n: nat)
    requires 0 < n <= |tags| && A.Run(A.Initial, P.Events(tags[..n])).Running?
    ensures A.Run(A.Initial, P.Events(tags[..n - 1])).Running? && P.EventOf(tags[n - 1]) != A.Junk
    ensures var t := tags[n - 1]; t.Begin? || t.Empty? ==> P.Proper(t.e, t.attrs)
  {
    hide P.Proper;
    var es := P.Events(tags[..n]);
    assert es[..n - 1] == P.Events(tags[..n - 1]) && es[n - 1] == P.EventOf(tags[n - 1]);
  }

  lemma ReadableFront(tags: seq<P.Tag>, n: nat, num: string -> Option<real>)
    requires 0 < n <= |tags|
    ensures AllReadable(P.Calls(tags[..n]), num) <==>
            AllReadable(P.Calls(tags[..n - 1]), num) && (tags[n - 1].Begin? || tags[n - 1].Empty? ==> Readable(StartOf(tags[n - 1]), num))
  {
    assert tags[..n][..n - 1] == tags[..n - 1];
    var cs, t := P.Calls(tags[..n - 1]), tags[n - 1];
    var all := P.Calls(tags[..n]);
    assert all == cs + P.CallsOf(t);
    EndReadable(t, num);
    hide Readable, P.Values, P.Choices;
    forall i | 0 <= i < |cs| ensures all[i] == cs[i] { }
    if t.Begin? || t.Empty? { assert all[|cs|] == StartOf(t); }
    forall i | |cs| <= i < |all| ensures all[i] == P.CallsOf(t)[i - |cs|] { }
  }

  lemma EndReadable(t: P.Tag, num: string -> Option<real>)
    ensures forall i :: 0 <= i < |P.CallsOf(t)| && !(i == 0 && (t.Begin? || t.Empty?)) ==> Readable(P.CallsOf(t)[i], num)
  {
  }

  lemma NothingSaid(tags: seq<P.Tag>, num: string -> Option<real>)
    ensures Says(tags, 0, num, DaxOf(tags[..0], num))
  {
  }

  lemma TagSilent(tags: seq<P.Tag>, n: nat, num: string -> Option<real>, d: Dax)
    requires n < |tags| && Says(tags, n, num, d) && !tags[n].Begin? && !tags[n].Empty?
    ensures Says(tags, n + 1, num, d)
  {
    hide JobsSaid, ChildrenSaid;
    JobsStay(tags, n, num, d.jobs);
    ChildrenStay(tags, n, d.children);
  }

  lemma TagSays(tags: seq<P.Tag>, n: nat, num: string -> Option<real>, d: Dax)
    requires n < |tags| && Says(tags, n, num, d) && (tags[n].Begin? || tags[n].Empty?)
    requires P.Proper(tags[n].e, tags[n].attrs) && Readable(StartOf(tags[n]), num)
    requires (tags[n].e == A.Uses ==> d.jobs != []) && (tags[n].e == A.Parent ==> d.children != [])
    ensures Says(tags, n + 1, num, Describe(d, HandledBy(StartOf(tags[n]), num)[0]))
  {
    hide JobsSaid, ChildrenSaid, P.Proper, Readable, P.Values, P.Choices;
    var h := HandledBy(StartOf(tags[n]), num)[0];
    match tags[n].e {
      case Adag =>
        JobsStay(tags, n, num, d.jobs);
        ChildrenStay(tags, n, d.children);
      case Job =>
        JobRead(tags, n, num, h);
        JobsGrow(tags, n, num, d.jobs, Job(h.id, h.name, h.runtime, []));
        ChildrenStay(tags, n, d.children);
      case Uses =>
        UseSaid(tags[n], num, h);
        UsesGrow(tags, n, num, d.jobs, h.u);
        ChildrenStay(tags, n, d.children);
      case Child =>
        ChildSaid(tags, n, num, h);
        ChildrenGrow(tags, n, d.children, Child(h.ref, []));
        JobsStay(tags, n, num, d.jobs);
      case Parent =>
        RefSaid(tags[n], num, h);
        ParentsGrow(tags, n, d.children, h.ref);
        JobsStay(tags, n, num, d.jobs);
    }
  }

  /** A required text is given as the handler gets it. */
  lemma TextSaid(t: P.Tag, a: string)
    requires (t.Begin? || t.Empty?) && P.Proper(t.e, t.attrs) && a in P.Required(t.e)
    ensures a in P.Attributes(t.e) && Gives(t.attrs, a, Get(P.Values(t.e, t.attrs), a))
  {
    RequiredText(t.e, a);
    hide P.Attributes, P.Required, P.Repeats, Gives;
    GivenText(t.e, t.attrs, a, P.Values(t.e, t.attrs)[a]);
  }

  lemma RequiredText(e: A.Element, a: string)
    requires a in P.Required(e)
    ensures a in P.Attributes(e)
  {
  }

  lemma NumberSaid(t: P.Tag, a: string, num: string -> Option<real>)
    requires (t.Begin? || t.Empty?) && P.Proper(t.e, t.attrs) && a in P.Required(t.e) && num(Get(P.Values(t.e, t.attrs), a)).Some?
    ensures GivesNumber(t.attrs, a, num, Number(Get(P.Values(t.e, t.attrs), a), num))
  {
    RequiredText(t.e, a);
    hide P.Attributes, P.Required, P.Repeats, GivesNumber;
    GivenNumber(t.e, t.attrs, a, num, Number(P.Values(t.e, t.attrs)[a], num));
  }

  lemma JobRead(tags: seq<P.Tag>, n: nat, num: string -> Option<real>, h: Handled)
    requires n < |tags| && Starts(tags[n], A.Job) && P.Proper(tags[n].e, tags[n].attrs) && Readable(StartOf(tags[n]), num)
    requires HandledBy(StartOf(tags[n]), num) == [h]
    ensures h.OnJob? && JobFrom(tags, num, Job(h.id, h.name, h.runtime, []), n, n + 1)
  {
    hide P.Values, P.Choices, P.Proper, Gives, GivesNumber;
    var t := tags[n];
    TextSaid(t, "id");
    TextSaid(t, "name");
    NumberSaid(t, "runtime", num);
    PlacesNext(tags, A.Uses, n, n);
    NoPlaces(tags, A.Uses, n);
  }

  lemma UseSaid(t: P.Tag, num: string -> Option<real>, h: Handled)
    requires Starts(t, A.Uses) && P.Proper(t.e, t.attrs) && Readable(StartOf(t), num) && HandledBy(StartOf(t), num) == [h]
    ensures h.OnUse? && UseFrom(t, num, h.u)
  {
    hide P.Values, P.Choices, P.Repeats, P.Has, Gives, GivesNumber, P.Known, LinksInput;
    GivenLink(t.attrs);
    hide P.Proper;
    TextSaid(t, "file");
    NumberSaid(t, "size", num);
  }

  lemma RefSaid(t: P.Tag, num: string -> Option<real>, h: Handled)
    requires (Starts(t, A.Child) || Starts(t, A.Parent)) && P.Proper(t.e, t.attrs) && HandledBy(StartOf(t), num) == [h]
    ensures (h.OnChild? || h.OnParent?) && Gives(t.attrs, "ref", h.ref)
  {
    hide P.Values, P.Choices, P.Proper, Gives;
    TextSaid(t, "ref");
  }

  lemma ChildSaid(tags: seq<P.Tag>, n: nat, num: string -> Option<real>, h: Handled)
    requires n < |tags| && Starts(tags[n], A.Child) && P.Proper(tags[n].e, tags[n].attrs) && HandledBy(StartOf(tags[n]), num) == [h]
    ensures h.OnChild? && ChildFrom(tags, Child(h.ref, []), n, n + 1)
  {
    hide P.Values, P.Choices, P.Proper, Gives;
    RefSaid(tags[n], num, h);
    PlacesNext(tags, A.Parent, n, n);
    NoPlaces(tags, A.Parent, n);
  }

  lemma {:induction false} RunProper(tags: seq<P.Tag>, n: nat)
    requires n <= |tags| && A.Run(A.Initial, P.Events(tags[..n])).Running?
    ensures forall p :: 0 <= p < n && (tags[p].Begin? || tags[p].Empty?) ==> P.Proper(tags[p].e, tags[p].attrs)
  {
    hide P.Proper, A.Run, P.Events, P.EventOf;
    if n > 0 {
      RunFront(tags, n);
      RunProper(tags, n - 1);
    }
  }

  lemma DocumentProper(tags: seq<P.Tag>)
    requires A.Document(P.Events(tags))
    ensures ProperTags(tags) && A.Run(A.Initial, P.Events(tags)).Running? && tags[..|tags|] == tags
  {
    A.AcceptsIffDocument(P.Events(tags));
    assert tags[..|tags|] == tags;
    hide P.Proper, A.Document, P.Events;
    RunProper(tags, |tags|);
  }

  /** The document that an accepted document is read as is the one that its tags say. */
  lemma DocumentSays(tags: seq<P.Tag>, num: string -> Option<real>, d: Dax)
    requires A.Document(P.Events(tags)) && AllReadable(P.Calls(tags), num)
    ensures Says(tags, |tags|, num, d) <==> d == DaxOf(tags, num)
  {
    hide A.Document, P.Events, P.Calls, AllReadable, Says, ProperTags, A.Run, DaxOf;
    DocumentProper(tags);
    TagsSay(tags, |tags|, num);
    if Says(tags, |tags|, num, d) { SaysOnce(tags, |tags|, num, d, DaxOf(tags, num)); }
  }

  lemma {:induction false} ReadableTags(tags: seq<P.Tag>, n: nat, num: string -> Option<real>)
    requires n <= |tags|
    ensures AllReadable(P.Calls(tags[..n]), num) <==>
            forall p :: 0 <= p < n && (tags[p].Begin? || tags[p].Empty?) ==> Readable(StartOf(tags[p]), num)
  {
    hide Readable, StartOf;
    if n > 0 {
      ReadableTags(tags, n - 1, num);
      ReadableFront(tags, n, num);
      hide AllReadable;
    }
  }

  lemma TagReads(t: P.Tag, num: string -> Option<real>)
    requires (t.Begin? || t.Empty?) && P.Proper(t.e, t.attrs)
    ensures Readable(StartOf(t), num) <==> TagReadable(t, num)
  {
    hide P.Proper, P.Values, P.Choices, GivesNumber;
    match t.e {
      case Adag => VersionReads(t, num);
      case Job => NumberReads(t, "runtime", num);
      case Uses => NumberReads(t, "size", num);
      case _ =>
    }
  }

  lemma NumberReads(t: P.Tag, a: string, num: string -> Option<real>)
    requires (t.Begin? || t.Empty?) && P.Proper(t.e, t.attrs) && a in P.Required(t.e)
    ensures num(Get(P.Values(t.e, t.attrs), a)).Some? <==> exists x :: GivesNumber(t.attrs, a, num, x)
  {
    RequiredText(t.e, a);
    hide P.Attributes, P.Required, P.Repeats, GivesNumber;
    var v := P.Values(t.e, t.attrs)[a];
    forall x ensures num(v) == Some(x) <==> GivesNumber(t.attrs, a, num, x) { GivenNumber(t.e, t.attrs, a, num, x); }
    if num(v).Some? { assert GivesNumber(t.attrs, a, num, num(v).value); }
  }

  lemma VersionReads(t: P.Tag, num: string -> Option<real>)
    requires Starts(t, A.Adag) && P.Proper(t.e, t.attrs)
    ensures num(Get(P.Values(t.e, t.attrs), "version")) == Some(2.1) <==>
            || GivesNumber(t.attrs, "version", num, 2.1)
            || (num("1.0") == Some(2.1) && forall i :: 0 <= i < |t.attrs| ==> t.attrs[i].name != "version")
  {
    assert "version" in P.Attributes(A.Adag);
    hide P.Attributes, P.Repeats, P.Required, P.Known, P.Stored, P.T.CString;
    if P.Has(t.attrs, "version") {
      GivenNumber(t.e, t.attrs, "version", num, 2.1);
    } else {
      StoredFrom(t.e, t.attrs, "version");
      P.T.CStringIff("1.0", "1.0");
    }
  }

  /** Every number can be read exactly when the tags give numbers, and the version expected. */
  lemma ReadableIff(tags: seq<P.Tag>, num: string -> Option<real>)
    requires A.Document(P.Events(tags))
    ensures AllReadable(P.Calls(tags), num) <==> NumbersGiven(tags, num)
  {
    hide A.Document, P.Events, P.Calls, AllReadable, Readable, TagReadable, P.Proper, StartOf, A.Run;
    DocumentProper(tags);
    ReadableTags(tags, |tags|, num);
    forall p | 0 <= p < |tags| && (tags[p].Begin? || tags[p].Empty?)
      ensures Readable(StartOf(tags[p]), num) <==> TagReadable(tags[p], num)
    {
      TagReads(tags[p], num);
    }
    forall p | 0 <= p < |tags| && !tags[p].Begin? && !tags[p].Empty? ensures TagReadable(tags[p], num) { OtherReads(tags[p], num); }
  }

  lemma OtherReads(t: P.Tag, num: string -> Option<real>)
    requires !t.Begin? && !t.Empty?
    ensures TagReadable(t, num)
  {
  }

  method CheckReadable(calls: seq<P.Call>, num: string -> Option<real>) returns (ok: bool)
    ensures ok <==> AllReadable(calls, num)
  {
    for i := 0 to |calls|
      invariant forall k :: 0 <= k < i ==> Readable(calls[k], num)
    {
      if !Readable(calls[i], num) { return false; }
    }
    ok := true;
  }

  /** A readable version is the one that is read. */
  lemma {:induction false} VersionFits(calls: seq<P.Call>, num: string -> Option<real>)
    requires AllReadable(calls, num)
    ensures forall h :: h in HandledAll(calls, num) && h.OnAdag? ==> h.version == 2.1
  {
    if calls != [] {
      VersionFits(calls[..|calls| - 1], num);
      assert Readable(calls[|calls| - 1], num);
    }
  }

  /** Reads the tags of a document and loads the graph they declare. Fails exactly when the document does not conform,
      a root element does not have the version expected, a number cannot be read, or the document is not loadable;
      otherwise the handlers have been called as the document says, and the result is non-empty exactly when what it
      declares is acyclic. */
  method CreateFromTags(tags: seq<P.Tag>, num: string -> Option<real>) returns (ok: bool, loader: Loader)
    ensures ok <==> A.Document(P.Events(tags)) && NumbersGiven(tags, num) && Loadable(DaxOf(tags, num))
    ensures A.Document(P.Events(tags)) && NumbersGiven(tags, num) ==> Says(tags, |tags|, num, DaxOf(tags, num))
    ensures fresh(loader) && fresh(loader.heap)
    ensures ok ==> loader.made == HandledTags(tags, num)
    ensures ok ==> (loader.result != [] <==> Acyclic(DeclaredEdges(DaxOf(tags, num))))
    ensures ok && loader.result != [] ==>
              && Complete(DaxOf(tags, num), loader.layout, loader.heap.store) && Expanded(DaxOf(tags, num), loader.layout, loader.heap.Edges())
              && Renaming(DaxOf(tags, num), loader.layout, loader.heap.store, loader.heap.store.Keys)
  {
    hide Loadable, A.Document, Acyclic, DeclaredEdges, Expanded, Complete, Renaming, DocCalls, Built, HandledAll, AllReadable;
    hide Says, NumbersGiven;
    var p := new P.Processor();
    var code := p.Lex(tags);
    if A.Document(P.Events(tags)) {
      ReadableIff(tags, num);
      if NumbersGiven(tags, num) { DocumentSays(tags, num, DaxOf(tags, num)); }
    }
    ok := code == 0;
    if ok { ok := CheckReadable(p.calls, num); }
    if ok {
      DocumentCalls(tags, num);
      VersionFits(p.calls, num);
      ok, loader := LoadCalls(HandledAll(p.calls, num));
    } else {
      loader := new Loader();
    }
  }

  /** The handlers are called one after the other. */
  method LoadCalls(hs: seq<Handled>) returns (ok: bool, loader: Loader)
    requires (hs == [] && Built(hs) == Dax([], [])) || (Led(hs) && hs[1..] == DocCalls(Built(hs)))
    requires hs != [] && hs[0].OnAdag? ==> hs[0].version == 2.1
    ensures ok <==> Loadable(Built(hs))
    ensures fresh(loader) && fresh(loader.heap) && (ok ==> loader.made == hs)
    ensures ok ==> (loader.result != [] <==> Acyclic(DeclaredEdges(Built(hs))))
    ensures ok && loader.result != [] ==>
              && Complete(Built(hs), loader.layout, loader.heap.store) && Expanded(Built(hs), loader.layout, loader.heap.Edges())
              && Renaming(Built(hs), loader.layout, loader.heap.store, loader.heap.store.Keys)
  {
    hide Loadable, Acyclic, DeclaredEdges, Expanded, Complete, Renaming, DocCalls, Built;
    loader := new Loader();
    if hs != [] {
      ok := loader.STagAdag(hs[0].version);
      assert hs == [hs[0]] + hs[1..];
    } else {
      NoDocument();
    }
    ok := loader.Load(Built(hs));
  }

  lemma NoDocument()
    ensures DocCalls(Dax([], [])) == []
  {
  }

  /** A root element without a version has the default one of the DTD, which the loader refuses. */
  lemma DefaultVersionRefused(attrs: seq<P.Attribute>, num: string -> Option<real>)
    requires !P.Has(attrs, "version") && num("1.0") != Some(2.1)
    ensures !Readable(P.StartCall(A.Adag, P.Values(A.Adag, attrs), P.Choices(A.Adag, attrs)), num)
  {
    StoredFrom(A.Adag, attrs, "version");
    P.T.CStringIff("1.0", "1.0");
  }

  /** An empty document conforms and could be loaded, but has no version and is refused. */
  lemma EmptyRefused(num: string -> Option<real>)
    requires num("1.0") != Some(2.1)
    ensures var tags := [P.Declare, P.Empty(A.Adag, [])];
            A.Document(P.Events(tags)) && Loadable(DaxOf(tags, num)) && !NumbersGiven(tags, num)
  {
    hide *;
    EmptyCalls(P.StartCall(A.Adag, P.Values(A.Adag, []), P.Choices(A.Adag, [])), num);
    EmptyDocument();
    NoJobsLoad();
    NoVersion(num);
  }

  lemma NoVersion(num: string -> Option<real>)
    requires num("1.0") != Some(2.1)
    ensures !NumbersGiven([P.Declare, P.Empty(A.Adag, [])], num)
  {
    var tags := [P.Declare, P.Empty(A.Adag, [])];
    assert !TagReadable(tags[1], num);
  }

  lemma EmptyCalls(c: P.Call, num: string -> Option<real>)
    requires c == P.StartCall(A.Adag, P.Values(A.Adag, []), P.Choices(A.Adag, []))
    ensures var tags := [P.Declare, P.Empty(A.Adag, [])];
            P.Calls(tags) == [c, P.EndCall(A.Adag)] && DaxOf(tags, num) == Dax([], [])
  {
    hide P.Values, P.Choices;
    var tags := [P.Declare, P.Empty(A.Adag, [])];
    assert tags[..1] == [P.Declare] && [P.Declare][..0] == [];
    assert P.Calls([P.Declare]) == [];
    assert P.Calls(tags) == [c, P.EndCall(A.Adag)];
    HandledOne(c, num);
    HandledOne(P.EndCall(A.Adag), num);
    HandledConcat([c], [P.EndCall(A.Adag)], num);
    assert [c] + [P.EndCall(A.Adag)] == P.Calls(tags);
    BuiltNext([], HandledBy(c, num)[0]);
    assert [] + HandledBy(c, num) == HandledBy(c, num) == HandledTags(tags, num);
  }

  lemma NoJobsLoad()
    ensures Loadable(Dax([], []))
  {
  }

  lemma EmptyDocument()
    ensures A.Document(P.Events([P.Declare, P.Empty(A.Adag, [])]))
  {
    var n := A.Node(A.Adag, [], true);
    assert A.Names([]) == [] && A.JobsThenChildren([], 0);
    assert A.Content(A.Adag, A.Names(n.kids));
    assert A.Conforms(n);
    assert P.Proper(A.Adag, []);
    assert P.Events([P.Declare, P.Empty(A.Adag, [])]) == [A.Declaration] + A.Text(n);
  }
}
