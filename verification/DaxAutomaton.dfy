/** The tag-level automaton of the DAX processor and the documents it accepts. */
module DaxAutomaton {

  datatype Element = Adag | Job | Child | Uses | Parent

  /** Start conditions: `In(e, k)` and `End(e)` are inside element `e`, `AttributeList(e)` in its start tag. */
  datatype Start = Prolog | Root | Epilog | AttributeList(e: Element) | In(e: Element, k: nat) | End(e: Element)

  /** What the scanner sees, white space and comments left out; `Junk` is any text that no rule of the DTD covers:
      character data, unknown tags, missing or repeated attributes. */
  datatype Event = Declaration | STag(e: Element) | ShortTag(e: Element) | ETag(e: Element) | Junk

  datatype State = State(start: Start, stack: seq<Start>, inext: nat, job: bool, child: bool)

  /** `Crashed`: stack underflow, or a handler that uses a null current job or child. */
  datatype Outcome = Running(s: State) | Rejected | Crashed

  const Initial: State := State(Prolog, [], 1, false, false)

  predicate Allowed(e: Element, q: Start) {
    match e
    case Adag => q == Root
    case Job => q == In(Adag, 0) || q == In(Adag, 2) || q == In(Adag, 3)
    case Child => q == In(Adag, 0) || q == In(Adag, 1) || q == In(Adag, 3) || q == In(Adag, 4) || q == In(Adag, 5)
    case Uses => q == In(Job, 0) || q == In(Job, 1) || q == In(Job, 2)
    case Parent => q == In(Child, 0) || q == In(Child, 1) || q == In(Child, 2)
  }

  /** The start condition set after element `e`, by the one it was found in. */
  function After(e: Element, q: Start): Start {
    if !Allowed(e, q) then q
    else match e
      case Adag => Epilog
      case Job => In(Adag, 3)
      case Child => In(Adag, 5)
      case Uses => In(Job, 2)
      case Parent => In(Child, 2)
  }

  function Inside(e: Element): Start { if e == Uses || e == Parent then End(e) else In(e, 0) }

  predicate Closable(q: Start, e: Element) {
    || q == End(e)
    || (e == Adag && (q == In(e, 0) || q == In(e, 1) || q == In(e, 3) || q == In(e, 5)))
    || ((e == Job || e == Child) && (q == In(e, 0) || q == In(e, 2)))
  }

  /** End of file is a success after the root element, and also wherever no rule mentions it. */
  predicate SucceedsAtEof(q: Start) {
    q == Epilog || q == Root || q == In(Adag, 2) || q == In(Adag, 4) || q == In(Child, 1) || q == In(Job, 1)
  }

  function Enter(s: State, q: Start): State { s.(start := q, stack := s.stack + [s.start]) }

  function Leave(s: State): Outcome {
    if s.stack == [] then Crashed else Running(s.(start := s.stack[|s.stack| - 1], stack := s.stack[..|s.stack| - 1]))
  }

  function OnStart(s: State, e: Element): Outcome {
    match e
    case Adag => Running(s)
    case Job => Running(s.(job := true))
    case Child => Running(s.(child := true))
    case Uses => if s.job then Running(s) else Crashed
    case Parent => if s.child then Running(s) else Crashed
  }

  function OnEnd(s: State, e: Element): State {
    match e
    case Job => s.(job := false)
    case Child => s.(child := false)
    case _ => s
  }

  /** The start tag up to its last character: attributes are read between a push and a pop of the start condition. */
  function Open(s: State, e: Element): Outcome {
    if !Allowed(e, s.start) then Rejected
    else match Leave(Enter(s, AttributeList(e)).(inext := s.inext + 2))
      case Running(t) => OnStart(t, e)
      case o => o
  }

  /** The end of an element, in the start condition it was found in. */
  function Finish(s: State, e: Element): Outcome {
    if s.inext < 2 then Crashed else Running(OnEnd(s, e).(inext := s.inext - 2, start := After(e, s.start)))
  }

  function Next(s: State, ev: Event): Outcome {
    match ev
    case Declaration => if s.start == Prolog then Running(s.(start := Root)) else Rejected
    case STag(e) => (match Open(s, e) case Running(t) => Running(Enter(t, Inside(e))) case o => o)
    case ShortTag(e) => (match Open(s, e) case Running(t) => Finish(t, e) case o => o)
    case ETag(e) =>
      if !Closable(s.start, e) then Rejected
      else (match Leave(s) case Running(t) => Finish(t, e) case o => o)
    case Junk => Rejected
  }

  function Run(s: State, es: seq<Event>): Outcome {
    if es == [] then Running(s)
    else match Run(s, es[..|es| - 1]) case Running(t) => Next(t, es[|es| - 1]) case o => o
  }

  predicate Accepts(es: seq<Event>) {
    match Run(Initial, es) case Running(s) => SucceedsAtEof(s.start) case _ => false
  }

  // ----- Documents -----

  /** An element; `short` when it is written as a single empty-element tag. */
  datatype Node = Node(e: Element, kids: seq<Node>, short: bool)

  ghost function Names(kids: seq<Node>): seq<Element> { seq(|kids|, i requires 0 <= i < |kids| => kids[i].e) }

  ghost predicate JobsThenChildren(names: seq<Element>, k: nat) {
    k <= |names| && (forall i :: 0 <= i < k ==> names[i] == Job) && forall i :: k <= i < |names| ==> names[i] == Child
  }

  /** The content models of the DTD. */
  ghost predicate Content(e: Element, names: seq<Element>) {
    match e
    case Adag => exists k: nat :: JobsThenChildren(names, k)
    case Job => forall i :: 0 <= i < |names| ==> names[i] == Uses
    case Child => forall i :: 0 <= i < |names| ==> names[i] == Parent
    case _ => names == []
  }

  ghost predicate Conforms(n: Node) {
    Content(n.e, Names(n.kids)) && (n.short ==> n.kids == []) && forall k :: k in n.kids ==> Conforms(k)
  }

  ghost function Text(n: Node): seq<Event> {
    if n.short then [ShortTag(n.e)] else [STag(n.e)] + Texts(n.kids) + [ETag(n.e)]
  }

  ghost function Texts(kids: seq<Node>): seq<Event> {
    if kids == [] then [] else Texts(kids[..|kids| - 1]) + Text(kids[|kids| - 1])
  }

  /** The documents of the DTD, and the declaration alone. */
  ghost predicate Document(es: seq<Event>) {
    es == [Declaration] || exists n: Node :: n.e == Adag && Conforms(n) && es == [Declaration] + Text(n)
  }

  // ----- Content models as paths of start conditions -----

  ghost function Phase(e: Element, names: seq<Element>): Start {
    if names == [] then Inside(e) else After(names[|names| - 1], Phase(e, names[..|names| - 1]))
  }

  ghost predicate Fits(e: Element, names: seq<Element>) {
    names == [] || (Fits(e, names[..|names| - 1]) && Allowed(names[|names| - 1], Phase(e, names[..|names| - 1])))
  }

  lemma {:induction false} PhaseIs(e: Element, names: seq<Element>)
    requires Fits(e, names)
    ensures names == [] ==> Phase(e, names) == Inside(e)
    ensures names != [] ==> var l := names[|names| - 1];
              && (l == Job ==> e == Adag && Phase(e, names) == In(Adag, 3)) && (l == Child ==> e == Adag && Phase(e, names) == In(Adag, 5))
              && (l == Uses ==> e == Job && Phase(e, names) == In(Job, 2)) && (l == Parent ==> e == Child && Phase(e, names) == In(Child, 2))
              && l != Adag
    ensures Closable(Phase(e, names), e) && !SucceedsAtEof(Phase(e, names))
  {
    if names != [] { PhaseIs(e, names[..|names| - 1]); }
  }

  /** The start conditions follow exactly the content models. */
  lemma {:induction false} FitsIffContent(e: Element, names: seq<Element>)
    ensures Fits(e, names) <==> Content(e, names)
  {
    if names != [] {
      var n := |names| - 1;
      var front, l := names[..n], names[n];
      FitsIffContent(e, front);
      assert front + [l] == names;
      FitsPush(e, front, l);
      if Content(e, names) { ContentFront(e, names); }
      hide Content, Fits;
      if Fits(e, front) { ContentPush(e, front, l); }
    } else if e == Adag {
      assert JobsThenChildren(names, 0);
    }
  }

  lemma ContentFront(e: Element, names: seq<Element>)
    requires Content(e, names) && names != []
    ensures Content(e, names[..|names| - 1])
  {
    if e == Adag {
      var k: nat :| JobsThenChildren(names, k);
      assert JobsThenChildren(names[..|names| - 1], if k == |names| then k - 1 else k);
    }
  }

  /** `l` may follow `front` inside `e`. */
  predicate Follows(e: Element, front: seq<Element>, l: Element) {
    match e
    case Adag => l == Child || (l == Job && (front == [] || front[|front| - 1] == Job))
    case Job => l == Uses
    case Child => l == Parent
    case _ => false
  }

  lemma FitsPush(e: Element, front: seq<Element>, l: Element)
    ensures Fits(e, front + [l]) <==> Fits(e, front) && Follows(e, front, l)
  {
    assert (front + [l])[..|front|] == front;
    if Fits(e, front) { PhaseIs(e, front); }
  }

  lemma ContentPush(e: Element, front: seq<Element>, l: Element)
    requires Content(e, front)
    ensures Content(e, front + [l]) <==> Follows(e, front, l)
  {
    var names := front + [l];
    if e == Adag {
      var k: nat :| JobsThenChildren(front, k);
      if l == Child { assert JobsThenChildren(names, k); }
      if l == Job && (front == [] || front[|front| - 1] == Job) { assert JobsThenChildren(names, |names|); }
      if Content(e, names) {
        var j: nat :| JobsThenChildren(names, j);
        assert names[|front|] == l;
        if front != [] { assert names[|front| - 1] == front[|front| - 1]; }
      }
    } else {
      assert names[|front|] == l;
      assert forall i :: 0 <= i < |front| ==> names[i] == front[i];
    }
  }

  // ----- Every document is accepted -----

  lemma {:induction false} RunConcat(s: State, a: seq<Event>, b: seq<Event>)
    ensures Run(s, a + b) == match Run(s, a) case Running(t) => Run(t, b) case o => o
  {
    if b == [] {
      assert a + b == a;
    } else {
      var n := |b| - 1;
      assert (a + b)[..|a + b| - 1] == a + b[..n];
      RunConcat(s, a, b[..n]);
    }
  }

  lemma RunOne(s: State, ev: Event)
    ensures Run(s, [ev]) == Next(s, ev)
  {
    assert [ev][..0] == [];
  }

  /** The handlers find what they need before an element `e`. */
  predicate Ready(s: State, e: Element) {
    s.inext >= 1 && s.job == (e == Uses) && s.child == (e == Parent)
  }

  /** The state inside `e`. */
  function Opened(s: State, e: Element): State {
    State(Inside(e), s.stack + [s.start], s.inext + 2, e == Job || e == Uses, e == Child || e == Parent)
  }

  lemma OpenIs(s: State, e: Element)
    requires Allowed(e, s.start)
    ensures Open(s, e) == OnStart(s.(inext := s.inext + 2), e)
  {
    hide Allowed, OnStart;
    assert (s.stack + [s.start])[..|s.stack|] == s.stack;
  }

  lemma NextOpen(s: State, e: Element)
    requires Allowed(e, s.start) && Ready(s, e)
    ensures Run(s, [STag(e)]) == Running(Opened(s, e)) && Run(s, [ShortTag(e)]) == Running(s.(start := After(e, s.start)))
  {
    RunOne(s, STag(e));
    RunOne(s, ShortTag(e));
    OpenIs(s, e);
    hide Open, Allowed, After, Run;
  }

  lemma NextClose(s: State, e: Element, q: Start)
    requires Allowed(e, s.start) && Ready(s, e) && Closable(q, e)
    ensures Run(Opened(s, e).(start := q), [ETag(e)]) == Running(s.(start := After(e, s.start)))
  {
    RunOne(Opened(s, e).(start := q), ETag(e));
  }

  lemma {:induction false} RunNode(s: State, n: Node)
    requires Conforms(n) && Allowed(n.e, s.start) && Ready(s, n.e)
    ensures Run(s, Text(n)) == Running(s.(start := After(n.e, s.start)))
    decreases n
  {
    hide Run, Content;
    NextOpen(s, n.e);
    if !n.short {
      var t := Opened(s, n.e);
      RunKids(s, n, |n.kids|);
      assert n.kids[..|n.kids|] == n.kids && Names(n.kids)[..|n.kids|] == Names(n.kids);
      FitsIffContent(n.e, Names(n.kids));
      PhaseIs(n.e, Names(n.kids));
      RunConcat(s, [STag(n.e)], Texts(n.kids));
      RunConcat(s, [STag(n.e)] + Texts(n.kids), [ETag(n.e)]);
      NextClose(s, n.e, Phase(n.e, Names(n.kids)));
    }
  }

  lemma {:induction false} RunKids(s: State, n: Node, j: nat)
    requires Conforms(n) && j <= |n.kids| && s.inext >= 1
    ensures Run(Opened(s, n.e), Texts(n.kids[..j])) == Running(Opened(s, n.e).(start := Phase(n.e, Names(n.kids)[..j])))
    decreases n, j
  {
    var t := Opened(s, n.e);
    if j > 0 {
      var front, k := n.kids[..j - 1], n.kids[j - 1];
      assert n.kids[..j][..j - 1] == front;
      assert Texts(n.kids[..j]) == Texts(front) + Text(k);
      hide Run, Conforms, Texts, Text, Phase;
      RunKids(s, n, j - 1);
      KidAllowed(s, n, j);
      RunNode(t.(start := Phase(n.e, Names(n.kids)[..j - 1])), k);
      RunConcat(t, Texts(front), Text(k));
    }
  }

  lemma KidAllowed(s: State, n: Node, j: nat)
    requires Conforms(n) && 0 < j <= |n.kids| && s.inext >= 1
    ensures var k, q := n.kids[j - 1], Phase(n.e, Names(n.kids)[..j - 1]);
            && Conforms(k) && Allowed(k.e, q) && Ready(Opened(s, n.e).(start := q), k.e)
            && After(k.e, q) == Phase(n.e, Names(n.kids)[..j])
  {
    hide Content;
    var names := Names(n.kids)[..j];
    FitsIffContent(n.e, Names(n.kids));
    FitsPrefix(n.e, Names(n.kids), j);
    assert names[..j - 1] == Names(n.kids)[..j - 1] && names[j - 1] == n.kids[j - 1].e;
    PhaseIs(n.e, names);
  }

  lemma {:induction false} FitsPrefix(e: Element, names: seq<Element>, j: nat)
    requires Fits(e, names) && j <= |names|
    ensures Fits(e, names[..j])
  {
    if j < |names| {
      FitsPrefix(e, names[..|names| - 1], j);
      assert names[..|names| - 1][..j] == names[..j];
    } else {
      assert names[..j] == names;
    }
  }

  // ----- Everything accepted is a document -----

  /** An open element and its complete children. */
  datatype Frame = Frame(e: Element, kids: seq<Node>)

  ghost function Top(fs: seq<Frame>): Start {
    if fs == [] then Root else Phase(fs[|fs| - 1].e, Names(fs[|fs| - 1].kids))
  }

  ghost function Starts(fs: seq<Frame>): (q: seq<Start>)
    ensures |q| == |fs|
  {
    if fs == [] then [] else Starts(fs[..|fs| - 1]) + [Top(fs[..|fs| - 1])]
  }

  ghost predicate Good(fs: seq<Frame>) {
    fs == [] ||
    var f := fs[|fs| - 1];
    && Good(fs[..|fs| - 1]) && Allowed(f.e, Top(fs[..|fs| - 1]))
    && Fits(f.e, Names(f.kids)) && forall k :: k in f.kids ==> Conforms(k)
  }

  ghost function OpenText(fs: seq<Frame>): seq<Event> {
    if fs == [] then [] else OpenText(fs[..|fs| - 1]) + [STag(fs[|fs| - 1].e)] + Texts(fs[|fs| - 1].kids)
  }

  ghost predicate IsOpen(fs: seq<Frame>, e: Element) { exists i :: 0 <= i < |fs| && fs[i].e == e }

  ghost function StateOf(fs: seq<Frame>): State {
    State(Top(fs), Starts(fs), 1 + 2 * |fs|, IsOpen(fs, Job), IsOpen(fs, Child))
  }

  function Level(e: Element): nat { match e case Adag => 1 case Job => 2 case Child => 2 case _ => 3 }

  /** The innermost open element tells the depth, and the others. */
  lemma {:induction false} Nesting(fs: seq<Frame>)
    requires Good(fs) && fs != []
    ensures |fs| == Level(fs[|fs| - 1].e) && fs[0].e == Adag
    ensures fs[|fs| - 1].e == Uses ==> fs[1].e == Job
    ensures fs[|fs| - 1].e == Parent ==> fs[1].e == Child
  {
    var front := fs[..|fs| - 1];
    if front != [] {
      Nesting(front);
      PhaseIs(front[|front| - 1].e, Names(front[|front| - 1].kids));
      PhaseInside(front[|front| - 1].e, Names(front[|front| - 1].kids));
    }
  }

  lemma PhaseInside(e: Element, names: seq<Element>)
    requires Fits(e, names)
    ensures (Phase(e, names).In? || Phase(e, names).End?) && Phase(e, names).e == e
    ensures forall f :: Closable(Phase(e, names), f) ==> f == e
  {
    PhaseIs(e, names);
  }

  lemma Flags(fs: seq<Frame>)
    requires Good(fs) && fs != []
    ensures IsOpen(fs, Job) <==> fs[|fs| - 1].e == Job || fs[|fs| - 1].e == Uses
    ensures IsOpen(fs, Child) <==> fs[|fs| - 1].e == Child || fs[|fs| - 1].e == Parent
  {
    hide Good;
    Nesting(fs);
  }

  /** The handlers of an allowed element always find their current job or child. */
  lemma ReadyHere(fs: seq<Frame>, e: Element)
    requires Good(fs) && Allowed(e, Top(fs))
    ensures Ready(StateOf(fs), e)
  {
    if fs != [] {
      Flags(fs);
      var f := fs[|fs| - 1];
      PhaseInside(f.e, Names(f.kids));
      PhaseIs(f.e, Names(f.kids));
    }
  }

  /** How far a document has been read. */
  datatype Progress = NotStarted | Within(open: seq<Frame>) | Done(root: Node)

  ghost predicate Sound(p: Progress) {
    match p
    case NotStarted => true
    case Within(fs) => Good(fs)
    case Done(n) => n.e == Adag && Conforms(n)
  }

  ghost function StateAt(p: Progress): State {
    match p case NotStarted => Initial case Within(fs) => StateOf(fs) case Done(_) => Initial.(start := Epilog)
  }

  ghost function TextAt(p: Progress): seq<Event> {
    match p case NotStarted => [] case Within(fs) => [Declaration] + OpenText(fs) case Done(n) => [Declaration] + Text(n)
  }

  lemma OpenOne(fs: seq<Frame>, e: Element)
    requires Good(fs) && Allowed(e, Top(fs))
    ensures Good(fs + [Frame(e, [])]) && OpenText(fs + [Frame(e, [])]) == OpenText(fs) + [STag(e)]
    ensures StateOf(fs + [Frame(e, [])]) == Opened(StateOf(fs), e)
  {
    var fs' := fs + [Frame(e, [])];
    assert fs'[..|fs|] == fs;
    Flags(fs');
  }

  lemma NamesPush(kids: seq<Node>, n: Node)
    ensures Names(kids + [n]) == Names(kids) + [n.e]
  {
  }

  /** A complete element is the root or one more child. */
  lemma Complete(fs: seq<Frame>, n: Node) returns (p: Progress)
    requires Good(fs) && Allowed(n.e, Top(fs)) && Conforms(n)
    ensures Sound(p) && TextAt(p) == [Declaration] + OpenText(fs) + Text(n)
    ensures StateAt(p) == StateOf(fs).(start := After(n.e, Top(fs)))
  {
    if fs == [] {
      p := Done(n);
    } else {
      var f, front := fs[|fs| - 1], fs[..|fs| - 1];
      assert front + [f] == fs;
      hide Good, Text, Texts, Top, Starts, IsOpen, Conforms, OpenText;
      AddedGood(front, f, n);
      AddedText(front, f, n);
      AddedState(front, f, n);
      p := Within(front + [Frame(f.e, f.kids + [n])]);
      assert [Declaration] + OpenText(fs) + Text(n) == [Declaration] + (OpenText(fs) + Text(n));
    }
  }

  lemma TopIs(front: seq<Frame>, f: Frame)
    ensures Top(front + [f]) == Phase(f.e, Names(f.kids))
  {
  }

  lemma AddedPhase(f: Frame, n: Node)
    ensures Phase(f.e, Names(f.kids + [n])) == After(n.e, Phase(f.e, Names(f.kids)))
    ensures Fits(f.e, Names(f.kids + [n])) <==> Fits(f.e, Names(f.kids)) && Allowed(n.e, Phase(f.e, Names(f.kids)))
  {
    NamesPush(f.kids, n);
    assert (Names(f.kids) + [n.e])[..|f.kids|] == Names(f.kids);
  }

  lemma AddedGood(front: seq<Frame>, f: Frame, n: Node)
    requires Good(front + [f]) && Allowed(n.e, Top(front + [f])) && Conforms(n)
    ensures Good(front + [Frame(f.e, f.kids + [n])])
  {
    hide Fits, Phase, Conforms;
    TopIs(front, f);
    AddedPhase(f, n);
    assert (front + [f])[..|front|] == front == (front + [Frame(f.e, f.kids + [n])])[..|front|];
  }

  lemma AddedText(front: seq<Frame>, f: Frame, n: Node)
    ensures OpenText(front + [Frame(f.e, f.kids + [n])]) == OpenText(front + [f]) + Text(n)
  {
    hide Text;
    assert (f.kids + [n])[..|f.kids|] == f.kids;
    assert Texts(f.kids + [n]) == Texts(f.kids) + Text(n);
    assert (front + [f])[..|front|] == front == (front + [Frame(f.e, f.kids + [n])])[..|front|];
  }

  lemma AddedState(front: seq<Frame>, f: Frame, n: Node)
    ensures StateOf(front + [Frame(f.e, f.kids + [n])]) == StateOf(front + [f]).(start := After(n.e, Top(front + [f])))
  {
    hide Phase;
    TopIs(front, f);
    TopIs(front, Frame(f.e, f.kids + [n]));
    AddedPhase(f, n);
    assert (front + [f])[..|front|] == front == (front + [Frame(f.e, f.kids + [n])])[..|front|];
    forall e ensures IsOpen(front + [Frame(f.e, f.kids + [n])], e) <==> IsOpen(front + [f], e) {
      hide Top, Starts;
      assert IsOpen(front + [f], e) <==> IsOpen(front, e) || f.e == e by { IsOpenLast(front, f, e); }
      IsOpenLast(front, Frame(f.e, f.kids + [n]), e);
    }
  }

  lemma IsOpenLast(front: seq<Frame>, f: Frame, e: Element)
    ensures IsOpen(front + [f], e) <==> IsOpen(front, e) || f.e == e
  {
    var fs := front + [f];
    assert fs[|front|] == f && forall i :: 0 <= i < |front| ==> fs[i] == front[i];
  }

  /** Each event that is not rejected carries the document one event further. */
  lemma Advance(p: Progress, ev: Event) returns (p': Progress)
    requires Sound(p)
    ensures Next(StateAt(p), ev) == Rejected ||
            (Next(StateAt(p), ev) == Running(StateAt(p')) && Sound(p') && TextAt(p') == TextAt(p) + [ev])
  {
    p' := p;
    if Next(StateAt(p), ev) != Rejected {
      NotRejected(p, ev);
      RunOne(StateAt(p), ev);
      hide Good, StateOf, OpenText, Text, Conforms;
      match ev {
        case Declaration =>
          p' := Within([]);
          NothingOpen();
        case STag(e) => p' := AdvanceOpen(p.open, e);
        case ShortTag(e) => p' := AdvanceShort(p.open, e);
        case ETag(e) => p' := AdvanceClose(p.open, e);
      }
    }
  }

  lemma NothingOpen()
    ensures Good([]) && OpenText([]) == [] && StateOf([]) == Initial.(start := Root)
  {
  }

  lemma NotRejected(p: Progress, ev: Event)
    requires Sound(p) && Next(StateAt(p), ev) != Rejected
    ensures ev == Declaration ==> p == NotStarted
    ensures ev.STag? || ev.ShortTag? ==> p.Within? && Allowed(ev.e, Top(p.open))
    ensures ev.ETag? ==> p.Within? && p.open != [] && Closable(Top(p.open), ev.e)
  {
    NextNeeds(StateAt(p), ev);
    hide Next, Starts, IsOpen;
    if p.Within? && p.open != [] {
      PhaseInside(p.open[|p.open| - 1].e, Names(p.open[|p.open| - 1].kids));
      hide Good, Phase;
    }
  }

  lemma NextNeeds(s: State, ev: Event)
    requires Next(s, ev) != Rejected
    ensures ev == Declaration ==> s.start == Prolog
    ensures ev.STag? || ev.ShortTag? ==> Allowed(ev.e, s.start)
    ensures ev.ETag? ==> Closable(s.start, ev.e)
  {
  }

  lemma AdvanceOpen(fs: seq<Frame>, e: Element) returns (p: Progress)
    requires Good(fs) && Allowed(e, Top(fs))
    ensures Run(StateOf(fs), [STag(e)]) == Running(StateAt(p)) && Sound(p) && TextAt(p) == [Declaration] + OpenText(fs) + [STag(e)]
  {
    hide Run, Good, StateOf, Fits, OpenText, Top;
    ReadyHere(fs, e);
    StateOfTop(fs);
    NextOpen(StateOf(fs), e);
    OpenOne(fs, e);
    p := Within(fs + [Frame(e, [])]);
  }

  lemma AdvanceShort(fs: seq<Frame>, e: Element) returns (p: Progress)
    requires Good(fs) && Allowed(e, Top(fs))
    ensures Run(StateOf(fs), [ShortTag(e)]) == Running(StateAt(p)) && Sound(p) && TextAt(p) == [Declaration] + OpenText(fs) + [ShortTag(e)]
  {
    hide Run, Good, StateOf, Fits, OpenText, Top;
    ReadyHere(fs, e);
    StateOfTop(fs);
    NextOpen(StateOf(fs), e);
    FitsIffContent(e, []);
    NothingFits(e);
    p := Complete(fs, Node(e, [], true));
  }

  lemma NothingFits(e: Element)
    ensures Names([]) == [] && Fits(e, [])
  {
  }

  lemma StateOfTop(fs: seq<Frame>)
    ensures StateOf(fs).start == Top(fs)
  {
  }

  lemma AdvanceClose(fs: seq<Frame>, e: Element) returns (p: Progress)
    requires Good(fs) && fs != [] && Closable(Top(fs), e)
    ensures Run(StateOf(fs), [ETag(e)]) == Running(StateAt(p)) && Sound(p) && TextAt(p) == [Declaration] + OpenText(fs) + [ETag(e)]
  {
    hide Run, StateOf, OpenText, Top, Good, Conforms, Text;
    var f, front := fs[|fs| - 1], fs[..|fs| - 1];
    assert front + [f] == fs;
    ClosedNode(front, f, e);
    ClosedRun(front, f);
    ClosedText(front, f);
    p := Complete(front, Node(e, f.kids, false));
    assert [Declaration] + OpenText(fs) + [ETag(e)] == [Declaration] + (OpenText(fs) + [ETag(e)]);
  }

  lemma ClosedNode(front: seq<Frame>, f: Frame, e: Element)
    requires Good(front + [f]) && Closable(Top(front + [f]), e)
    ensures e == f.e && Conforms(Node(e, f.kids, false)) && Good(front) && Allowed(e, Top(front))
  {
    hide Good, Top, Fits, Phase, Content;
    GoodLast(front, f);
    TopIs(front, f);
    PhaseInside(f.e, Names(f.kids));
    FitsIffContent(e, Names(f.kids));
  }

  lemma ClosedRun(front: seq<Frame>, f: Frame)
    requires Good(front + [f]) && Closable(Top(front + [f]), f.e)
    ensures Run(StateOf(front + [f]), [ETag(f.e)]) == Running(StateOf(front).(start := After(f.e, Top(front))))
  {
    hide Run, StateOf, Top, Good, Conforms;
    GoodLast(front, f);
    ClosedState(front, f);
    ReadyHere(front, f.e);
    StateOfTop(front);
    NextClose(StateOf(front), f.e, Top(front + [f]));
  }

  lemma GoodLast(front: seq<Frame>, f: Frame)
    requires Good(front + [f])
    ensures Good(front) && Allowed(f.e, Top(front)) && Fits(f.e, Names(f.kids)) && forall k :: k in f.kids ==> Conforms(k)
  {
    assert (front + [f])[..|front|] == front;
  }

  lemma ClosedState(front: seq<Frame>, f: Frame)
    requires Good(front + [f])
    ensures StateOf(front + [f]) == Opened(StateOf(front), f.e).(start := Top(front + [f]))
  {
    Flags(front + [f]);
    assert (front + [f])[..|front|] == front;
  }

  lemma ClosedText(front: seq<Frame>, f: Frame)
    ensures OpenText(front + [f]) + [ETag(f.e)] == OpenText(front) + Text(Node(f.e, f.kids, false))
  {
    assert (front + [f])[..|front|] == front;
  }

  /** Every run that is not rejected reads a beginning of a document; it never crashes. */
  lemma {:induction false} Reached(es: seq<Event>) returns (p: Progress)
    ensures Run(Initial, es) == Rejected || (Run(Initial, es) == Running(StateAt(p)) && Sound(p) && TextAt(p) == es)
  {
    if es == [] {
      p := NotStarted;
    } else {
      var n := |es| - 1;
      assert es[..n] + [es[n]] == es;
      RunConcat(Initial, es[..n], [es[n]]);
      hide Run, Next, StateAt, Sound, TextAt;
      p := Reached(es[..n]);
      if Run(Initial, es[..n]) != Rejected {
        RunOne(StateAt(p), es[n]);
        p := Advance(p, es[n]);
      }
    }
  }

  // ----- Main results -----

  /** The automaton accepts the documents of the DTD, and the declaration alone. */
  lemma AcceptsIffDocument(es: seq<Event>)
    ensures Accepts(es) <==> Document(es)
  {
    if Accepts(es) { AcceptedIsDocument(es); }
    if Document(es) { DocumentAccepted(es); }
  }

  lemma AcceptedIsDocument(es: seq<Event>)
    requires Accepts(es)
    ensures Document(es)
  {
    var p := Reached(es);
    hide Run, Conforms, Text;
    if p.Within? && p.open != [] { PhaseIs(p.open[|p.open| - 1].e, Names(p.open[|p.open| - 1].kids)); }
  }

  lemma DocumentAccepted(es: seq<Event>)
    requires Document(es)
    ensures Accepts(es)
  {
    RunOne(Initial, Declaration);
    hide Run, Conforms, Text;
    if n: Node :| n.e == Adag && Conforms(n) && es == [Declaration] + Text(n) {
      RunConcat(Initial, [Declaration], Text(n));
      RunNode(Initial.(start := Root), n);
    }
  }

  /** On every prefix: no crash, at most three open elements, two index entries for each, and no handler without
      its current job or child. */
  lemma OnEveryPrefix(es: seq<Event>, n: nat)
    requires n <= |es|
    ensures Run(Initial, es[..n]) != Crashed
    ensures Run(Initial, es[..n]).Running? ==>
              var s := Run(Initial, es[..n]).s;
              && |s.stack| <= 3 && s.inext == 1 + 2 * |s.stack|
              && (Allowed(Uses, s.start) ==> s.job) && (Allowed(Parent, s.start) ==> s.child)
  {
    var p := Reached(es[..n]);
    if Run(Initial, es[..n]).Running? && p.Within? && p.open != [] {
      Nesting(p.open);
      if Allowed(Uses, Top(p.open)) { ReadyHere(p.open, Uses); }
      if Allowed(Parent, Top(p.open)) { ReadyHere(p.open, Parent); }
    }
  }
}
