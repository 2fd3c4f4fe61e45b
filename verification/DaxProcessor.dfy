/** The DAX processor: the automaton, its buffers, and the calls it makes to the handlers of the loader. */
module DaxProcessor {
  import opened DaxAutomaton
  import D = DaxDtd
  import T = TextBuffers

  datatype Attribute = Attribute(name: string, value: string)

  /** A token of the document with its attributes. */
  datatype Tag = Declare | Begin(e: Element, attrs: seq<Attribute>) | Empty(e: Element, attrs: seq<Attribute>) | Finish(e: Element) | Other

  /** The value of an enumerated attribute. */
  datatype Choice = Unset | Chosen(value: string)

  datatype Call = StartCall(e: Element, values: map<string, string>, choices: map<string, Choice>) | EndCall(e: Element)

  // ----- Attribute tables -----

  function Attributes(e: Element): set<string> {
    match e
    case Adag => {"childCount", "count", "fileCount", "index", "jobCount", "name", "version", "xmlns", "xmlns:xsi", "xsi:schemaLocation"}
    case Job => {"id", "level", "name", "namespace", "runtime", "version"}
    case Uses => {"file", "size", "type"}
    case _ => {"ref"}
  }

  /** What an enumerated attribute may be. */
  function Options(e: Element, a: string): set<string> {
    if e != Uses then {}
    else if a == "link" then {"input", "output"}
    else if a == "optional" || a == "register" || a == "transfer" then {"false", "true"}
    else {}
  }

  predicate IsOption(e: Element, x: Attribute) { x.value in Options(e, x.name) }

  function DefaultChoices(e: Element): map<string, Choice> {
    if e == Uses then map["link" := Unset, "optional" := Chosen("false"), "register" := Chosen("true"), "transfer" := Chosen("true")]
    else map[]
  }

  function Required(e: Element): set<string> {
    match e
    case Adag => {}
    case Job => {"id", "name", "runtime"}
    case Uses => {"file", "size"}
    case _ => {"ref"}
  }

  /** Where the default value of an attribute is stored; 0 holds the empty string. */
  function DefaultOffset(e: Element, a: string): nat {
    match e
    case Adag =>
      if a == "version" then 153 else if a == "xmlns" then 1 else if a == "xmlns:xsi" then 35
      else if a == "xsi:schemaLocation" then 77 else 0
    case Job => if a == "version" then 157 else 0
    case Uses => if a == "type" then 161 else 0
    case _ => 0
  }

  const Schema := "http://pegasus.isi.edu/schema/DAX"
  const Instance := "http://www.w3.org/2001/XMLSchema-instance"
  const Location := "http://pegasus.isi.edu/schema/DAX http://pegasus.isi.edu/schema/dax-2.1.xsd"

  function Default(e: Element, a: string): string {
    match e
    case Adag =>
      if a == "version" then "1.0" else if a == "xmlns" then Schema else if a == "xmlns:xsi" then Instance
      else if a == "xsi:schemaLocation" then Location else ""
    case Job => if a == "version" then "0.0" else ""
    case Uses => if a == "type" then "data" else ""
    case _ => ""
  }

  // ----- What a document asks for -----

  predicate Has(attrs: seq<Attribute>, a: string) { exists i :: 0 <= i < |attrs| && attrs[i].name == a }

  /** A text attribute is given twice; enumerated ones may be. */
  predicate Repeats(e: Element, attrs: seq<Attribute>) {
    exists i, j :: 0 <= i < j < |attrs| && attrs[i].name == attrs[j].name && attrs[i].name in Attributes(e)
  }

  predicate Known(e: Element, attrs: seq<Attribute>) {
    forall i :: 0 <= i < |attrs| ==> attrs[i].name in Attributes(e) || IsOption(e, attrs[i])
  }

  predicate Proper(e: Element, attrs: seq<Attribute>) {
    Known(e, attrs) && !Repeats(e, attrs) && forall a :: a in Required(e) ==> Has(attrs, a)
  }

  /** The last choice of each enumerated attribute. */
  function Choices(e: Element, attrs: seq<Attribute>): map<string, Choice> {
    if attrs == [] then DefaultChoices(e)
    else
      var x := attrs[|attrs| - 1];
      var before := Choices(e, attrs[..|attrs| - 1]);
      if IsOption(e, x) then before[x.name := Chosen(x.value)] else before
  }

  /** The last value given, or the default one. */
  function Stored(e: Element, attrs: seq<Attribute>, a: string): string {
    if attrs == [] then Default(e, a)
    else if attrs[|attrs| - 1].name == a then attrs[|attrs| - 1].value
    else Stored(e, attrs[..|attrs| - 1], a)
  }

  function Values(e: Element, attrs: seq<Attribute>): map<string, string> {
    map a | a in Attributes(e) :: T.CString(Stored(e, attrs, a))
  }

  /** Of an enumerated attribute given several times, the last one counts. */
  lemma {:induction false} LastChoiceWins(e: Element, attrs: seq<Attribute>, i: nat)
    requires i < |attrs| && IsOption(e, attrs[i])
    requires forall j :: i < j < |attrs| && IsOption(e, attrs[j]) ==> attrs[j].name != attrs[i].name
    ensures attrs[i].name in Choices(e, attrs) && Choices(e, attrs)[attrs[i].name] == Chosen(attrs[i].value)
  {
    hide Options;
    var n := |attrs| - 1;
    if i < n { LastChoiceWins(e, attrs[..n], i); }
  }

  // ----- The tables and the document type -----

  /** The document type declares a text attribute `a`. */
  ghost predicate TextRule(e: Element, a: string) { exists p :: D.Rule(e, a, D.Text, p) in D.Rules }

  lemma TextIff(e: Element, a: string)
    ensures a in Attributes(e) <==> TextRule(e, a)
  {
    if a in Attributes(e) {
      match e
      case Adag =>
        var v := if a == "version" then "1.0" else if a == "xmlns" then Schema else if a == "xmlns:xsi" then Instance
                 else if a == "xsi:schemaLocation" then Location else "0";
        assert D.Rule(e, a, D.Text, D.Else(v)) in D.Rules;
      case Job =>
        var p := if a in Required(e) then D.Must else D.Else(if a == "version" then "0.0" else "");
        assert D.Rule(e, a, D.Text, p) in D.Rules;
      case Uses => assert D.Rule(e, a, D.Text, if a == "type" then D.Else("data") else D.Must) in D.Rules;
      case _ => assert D.Rule(e, a, D.Text, D.Must) in D.Rules;
    }
  }

  /** What an enumerated attribute may be is what the document type lists. */
  lemma OptionsIff(e: Element, a: string, v: string)
    ensures v in Options(e, a) <==> exists vs, p :: D.Rule(e, a, D.OneOf(vs), p) in D.Rules && v in vs
  {
    if v in Options(e, a) {
      if a == "link" {
        assert D.Rule(e, a, D.OneOf({"input", "output"}), D.May) in D.Rules;
      } else {
        assert D.Rule(e, a, D.OneOf({"false", "true"}), D.Else(if a == "optional" then "false" else "true")) in D.Rules;
      }
    }
  }

  lemma RequiredIff(e: Element, a: string)
    ensures a in Required(e) <==> exists ty :: D.Rule(e, a, ty, D.Must) in D.Rules
  {
    if a in Required(e) { assert D.Rule(e, a, D.Text, D.Must) in D.Rules; }
  }

  /** Enumerated attributes start with their declared default, or with none. */
  lemma ChoicesStart(e: Element, a: string)
    ensures a in DefaultChoices(e) <==> exists vs, p :: D.Rule(e, a, D.OneOf(vs), p) in D.Rules
    ensures forall vs, p :: D.Rule(e, a, D.OneOf(vs), p) in D.Rules ==>
              DefaultChoices(e)[a] == match p case Else(v) => Chosen(v) case _ => Unset
  {
    if a in DefaultChoices(e) {
      if a == "link" {
        assert D.Rule(e, a, D.OneOf({"input", "output"}), D.May) in D.Rules;
      } else {
        assert D.Rule(e, a, D.OneOf({"false", "true"}), D.Else(if a == "optional" then "false" else "true")) in D.Rules;
      }
    }
  }

  /** The processor gives text attributes the defaults of the document type except for six of the root element. */
  lemma DefaultsAgreeIff(e: Element, a: string, v: string)
    requires D.Rule(e, a, D.Text, D.Else(v)) in D.Rules
    ensures Default(e, a) == v <==> !(e == Adag && a in {"childCount", "count", "fileCount", "index", "jobCount", "name"})
    ensures Default(e, a) != v ==> Default(e, a) == "" && v == "0"
  {
  }

  /** A tag is proper exactly when its attributes are declared and have values that are allowed, no text attribute is
      given twice, and all those required are given. */
  lemma ProperIff(e: Element, attrs: seq<Attribute>)
    ensures Proper(e, attrs) <==>
            && (forall i :: 0 <= i < |attrs| ==> AllowsIt(e, attrs[i]))
            && (forall i, j :: 0 <= i < j < |attrs| && attrs[i].name == attrs[j].name ==> !TextRule(e, attrs[i].name))
            && (forall a, ty :: D.Rule(e, a, ty, D.Must) in D.Rules ==> exists i :: 0 <= i < |attrs| && attrs[i].name == a)
  {
    hide Attributes, Options, Required, TextRule, AllowsIt;
    forall i | 0 <= i < |attrs| ensures AllowsIt(e, attrs[i]) <==> attrs[i].name in Attributes(e) || IsOption(e, attrs[i]) {
      AllowsIff(e, attrs[i]);
    }
    forall i | 0 <= i < |attrs| ensures TextRule(e, attrs[i].name) <==> attrs[i].name in Attributes(e) { TextIff(e, attrs[i].name); }
    assert Repeats(e, attrs) <==> exists i, j :: 0 <= i < j < |attrs| && attrs[i].name == attrs[j].name && TextRule(e, attrs[i].name);
    GivenIff(e, attrs);
    hide IsOption, Has;
  }

  lemma GivenIff(e: Element, attrs: seq<Attribute>)
    ensures (forall a :: a in Required(e) ==> Has(attrs, a)) <==>
            (forall a, ty :: D.Rule(e, a, ty, D.Must) in D.Rules ==> exists i :: 0 <= i < |attrs| && attrs[i].name == a)
  {
    hide Required;
    forall a ensures a in Required(e) <==> exists ty :: D.Rule(e, a, ty, D.Must) in D.Rules { RequiredIff(e, a); }
    if forall a, ty :: D.Rule(e, a, ty, D.Must) in D.Rules ==> exists i :: 0 <= i < |attrs| && attrs[i].name == a {
      forall a | a in Required(e) ensures Has(attrs, a) {
        var ty :| D.Rule(e, a, ty, D.Must) in D.Rules;
      }
    }
    if forall a :: a in Required(e) ==> Has(attrs, a) {
      forall a, ty | D.Rule(e, a, ty, D.Must) in D.Rules ensures exists i :: 0 <= i < |attrs| && attrs[i].name == a {
        assert a in Required(e);
      }
    }
  }

  /** An attribute that the document type declares, with a value that it allows. */
  ghost predicate AllowsIt(e: Element, x: Attribute) {
    exists r :: r in D.Rules && r.e == e && r.name == x.name && (r.kind.OneOf? ==> x.value in r.kind.values)
  }

  lemma AllowsIff(e: Element, x: Attribute)
    ensures AllowsIt(e, x) <==> x.name in Attributes(e) || IsOption(e, x)
  {
    TextIff(e, x.name);
    OptionsIff(e, x.name, x.value);
    hide Attributes, Options;
    if AllowsIt(e, x) {
      var r :| r in D.Rules && r.e == e && r.name == x.name && (r.kind.OneOf? ==> x.value in r.kind.values);
      assert r == D.Rule(e, x.name, r.kind, r.presence);
    }
    if TextRule(e, x.name) {
      var p :| D.Rule(e, x.name, D.Text, p) in D.Rules;
      assert D.Rule(e, x.name, D.Text, p).kind == D.Text;
    }
  }

  function EventOf(t: Tag): Event {
    match t
    case Declare => Declaration
    case Begin(e, attrs) => if Proper(e, attrs) then STag(e) else Junk
    case Empty(e, attrs) => if Proper(e, attrs) then ShortTag(e) else Junk
    case Finish(e) => ETag(e)
    case Other => Junk
  }

  function CallsOf(t: Tag): seq<Call> {
    match t
    case Begin(e, attrs) => [StartCall(e, Values(e, attrs), Choices(e, attrs))]
    case Empty(e, attrs) => [StartCall(e, Values(e, attrs), Choices(e, attrs)), EndCall(e)]
    case Finish(e) => [EndCall(e)]
    case _ => []
  }

  function Events(tags: seq<Tag>): seq<Event> { seq(|tags|, i requires 0 <= i < |tags| => EventOf(tags[i])) }

  function Calls(tags: seq<Tag>): seq<Call> {
    if tags == [] then [] else Calls(tags[..|tags| - 1]) + CallsOf(tags[|tags| - 1])
  }

  // ----- Steps of the automaton in one go -----

  lemma NextBegin(s: State, e: Element)
    requires Allowed(e, s.start) && (e == Uses ==> s.job) && (e == Parent ==> s.child)
    ensures Next(s, STag(e)) == Running(State(Inside(e), s.stack + [s.start], s.inext + 2, s.job || e == Job, s.child || e == Child))
  {
    OpenIs(s, e);
    hide Open, Allowed, After;
  }

  lemma NextEmpty(s: State, e: Element)
    requires Allowed(e, s.start) && (e == Uses ==> s.job) && (e == Parent ==> s.child)
    ensures Next(s, ShortTag(e)) == Running(State(After(e, s.start), s.stack, s.inext, s.job && e != Job, s.child && e != Child))
  {
    OpenIs(s, e);
    hide Open, Allowed, After;
  }

  lemma NextFinish(s: State, e: Element)
    requires Closable(s.start, e) && s.stack != [] && s.inext >= 2
    ensures Next(s, ETag(e)) ==
            Running(State(After(e, s.stack[|s.stack| - 1]), s.stack[..|s.stack| - 1], s.inext - 2, s.job && e != Job, s.child && e != Child))
  {
  }

  // ----- Strings of the open elements -----

  datatype Opening = Opening(e: Element, attrs: seq<Attribute>)

  /** The end of the text of open element `i`. */
  ghost function Limit(s: T.Stacks, i: nat): nat {
    if 2 * i + 4 < |s.index| then s.index[2 * i + 4] else |s.text|
  }

  /** Every attribute of an open element is stored where its offset tells, before the text of the inner elements. */
  ghost predicate Kept(s: T.Stacks, ax: map<(Element, string), nat>, open: seq<Opening>) {
    forall i, a :: 0 <= i < |open| && a in Attributes(open[i].e) ==> KeptOne(s, ax, open[i], i, a)
  }

  ghost predicate KeptOne(s: T.Stacks, ax: map<(Element, string), nat>, o: Opening, i: nat, a: string) {
    && (o.e, a) in ax && Limit(s, i) <= |s.text|
    && T.StringAt(s.text[..Limit(s, i)], ax[(o.e, a)], Stored(o.e, o.attrs, a))
  }

  const LiteralsEnd: nat := 166

  ghost predicate Literals(s: T.Stacks) {
    && LiteralsEnd <= |s.text|
    && (forall i :: 1 <= i < |s.index| && i % 2 == 0 ==> LiteralsEnd <= s.index[i] <= |s.text|)
    && T.StringAt(s.text[..LiteralsEnd], 0, "") && T.StringAt(s.text[..LiteralsEnd], 1, Schema)
    && T.StringAt(s.text[..LiteralsEnd], 35, Instance) && T.StringAt(s.text[..LiteralsEnd], 77, Location)
    && T.StringAt(s.text[..LiteralsEnd], 153, "1.0") && T.StringAt(s.text[..LiteralsEnd], 157, "0.0")
    && T.StringAt(s.text[..LiteralsEnd], 161, "data")
  }

  /** Open elements are at levels one, two and three; the start conditions are theirs. */
  ghost predicate NestedIn(start: Start, stack: seq<Start>, open: seq<Opening>, job: bool, child: bool) {
    && |stack| == |open| <= 3
    && (open == [] ==> start == Prolog || start == Root || start == Epilog)
    && (open != [] ==> stack[0] == Root && Belongs(start, open[|open| - 1].e))
    && (forall i :: 0 <= i < |open| ==> Level(open[i].e) == i + 1)
    && (forall i :: 1 <= i < |open| ==> Belongs(stack[i], open[i - 1].e) && Allowed(open[i].e, stack[i]))
    && job == (|open| >= 2 && open[1].e == Job) && child == (|open| >= 2 && open[1].e == Child)
  }

  predicate Belongs(q: Start, e: Element) { q == End(e) || (q.In? && q.e == e) }

  lemma KeptPut(s: T.Stacks, s': T.Stacks, ax: map<(Element, string), nat>, open: seq<Opening>)
    requires Literals(s) && Kept(s, ax, open) && |s.index| == 1 + 2 * |open| && s'.index == s.index && s.text <= s'.text
    ensures Literals(s') && Kept(s', ax, open)
  {
    assert s'.text[..LiteralsEnd] == s.text[..LiteralsEnd];
    forall i, a | 0 <= i < |open| && a in Attributes(open[i].e) ensures KeptOne(s', ax, open[i], i, a) {
      assert KeptOne(s, ax, open[i], i, a);
      assert s.text[..Limit(s, i)] <= s'.text[..Limit(s', i)];
      T.StringKept(s.text[..Limit(s, i)], s'.text[..Limit(s', i)], ax[(open[i].e, a)], Stored(open[i].e, open[i].attrs, a));
    }
  }

  function Defaults(e: Element): map<(Element, string), nat> {
    map a | a in Attributes(e) :: (e, a) := DefaultOffset(e, a)
  }

  lemma DefaultStored(s: T.Stacks, e: Element, a: string)
    requires Literals(s) && a in Attributes(e)
    ensures T.StringAt(s.text[..LiteralsEnd], DefaultOffset(e, a), Default(e, a))
  {
    hide T.StringAt;
  }

  /** Opening `e`: its attributes have their default values. */
  lemma KeptPush(s: T.Stacks, ax: map<(Element, string), nat>, open: seq<Opening>, e: Element)
    requires Literals(s) && Kept(s, ax, open) && |s.index| == 1 + 2 * |open|
    requires forall i :: 0 <= i < |open| ==> open[i].e != e
    ensures Literals(T.Apply(s, T.Push(0))) && Kept(T.Apply(s, T.Push(0)), ax + Defaults(e), open + [Opening(e, [])])
  {
    var s', ax', open' := T.Apply(s, T.Push(0)), ax + Defaults(e), open + [Opening(e, [])];
    hide Attributes, T.StringAt, DefaultOffset, Default, KeptOne, Literals;
    LiteralsPush(s);
    forall i, a | 0 <= i < |open'| && a in Attributes(open'[i].e) ensures KeptOne(s', ax', open'[i], i, a) {
      if i < |open| {
        assert KeptOne(s, ax, open[i], i, a);
        KeptOuter(s, ax, open[i], i, a, e);
      } else {
        KeptNew(s, ax, e, i, a);
      }
    }
  }

  lemma KeptOuter(s: T.Stacks, ax: map<(Element, string), nat>, o: Opening, i: nat, a: string, e: Element)
    requires KeptOne(s, ax, o, i, a) && o.e != e && 2 * i + 3 <= |s.index| && |s.index| % 2 == 1
    ensures KeptOne(T.Apply(s, T.Push(0)), ax + Defaults(e), o, i, a)
  {
    hide Attributes, T.StringAt, Stored;
    var s' := T.Apply(s, T.Push(0));
    assert Limit(s', i) == Limit(s, i);
    assert (o.e, a) !in Defaults(e);
  }

  lemma KeptNew(s: T.Stacks, ax: map<(Element, string), nat>, e: Element, i: nat, a: string)
    requires Literals(s) && |s.index| == 1 + 2 * i && a in Attributes(e)
    ensures KeptOne(T.Apply(s, T.Push(0)), ax + Defaults(e), Opening(e, []), i, a)
  {
    hide Attributes, T.StringAt, Literals, DefaultOffset, Default;
    var s' := T.Apply(s, T.Push(0));
    assert (e, a) in Defaults(e);
    DefaultStored(s, e, a);
    LiteralsFit(s);
    T.StringKept(s.text[..LiteralsEnd], s.text, DefaultOffset(e, a), Default(e, a));
    assert s'.text[..Limit(s', i)] == s.text;
  }

  lemma LiteralsPush(s: T.Stacks)
    requires Literals(s) && |s.index| % 2 == 1
    ensures Literals(T.Apply(s, T.Push(0)))
  {
    hide T.StringAt;
  }

  lemma LiteralsFit(s: T.Stacks)
    requires Literals(s)
    ensures LiteralsEnd <= |s.text|
  {
  }

  lemma StoredPush(e: Element, attrs: seq<Attribute>, x: Attribute, a: string)
    ensures Stored(e, attrs + [x], a) == if x.name == a then x.value else Stored(e, attrs, a)
  {
    assert (attrs + [x])[..|attrs|] == attrs;
  }

  /** One more attribute of the innermost element. */
  lemma KeptAttribute(s: T.Stacks, ax: map<(Element, string), nat>, front: seq<Opening>, e: Element, attrs: seq<Attribute>, x: Attribute,
                      s': T.Stacks)
    requires Literals(s) && Kept(s, ax, front + [Opening(e, attrs)]) && |s.index| == 3 + 2 * |front|
    requires s'.index == s.index && s.text <= s'.text && T.StringAt(s'.text, |s.text|, x.value)
    requires forall i :: 0 <= i < |front| ==> front[i].e != e
    ensures Literals(s') && Kept(s', ax[(e, x.name) := |s.text|], front + [Opening(e, attrs + [x])])
  {
    var open, open', ax' := front + [Opening(e, attrs)], front + [Opening(e, attrs + [x])], ax[(e, x.name) := |s.text|];
    KeptPut(s, s', ax, open);
    hide Attributes, KeptOne, Literals, T.StringAt;
    forall i, a | 0 <= i < |open'| && a in Attributes(open'[i].e) ensures KeptOne(s', ax', open'[i], i, a) {
      assert KeptOne(s', ax, open[i], i, a);
      KeptRedirected(s', ax, open[i], i, a, (e, x.name), |s.text|);
      if i == |front| && x.name == a {
        KeptGiven(s', ax', e, attrs, x, i, |s.text|);
      } else if i == |front| {
        StoredPush(e, attrs, x, a);
        KeptSame(s', ax', Opening(e, attrs), Opening(e, attrs + [x]), i, a);
      } else {
        assert open[i] == front[i] == open'[i];
      }
    }
  }

  lemma KeptRedirected(s: T.Stacks, ax: map<(Element, string), nat>, o: Opening, i: nat, a: string, key: (Element, string), at: nat)
    requires KeptOne(s, ax, o, i, a)
    ensures key != (o.e, a) ==> KeptOne(s, ax[key := at], o, i, a)
  {
  }

  lemma KeptSame(s: T.Stacks, ax: map<(Element, string), nat>, o: Opening, o': Opening, i: nat, a: string)
    requires KeptOne(s, ax, o, i, a) && o'.e == o.e && Stored(o.e, o.attrs, a) == Stored(o.e, o'.attrs, a)
    ensures KeptOne(s, ax, o', i, a)
  {
  }

  lemma KeptGiven(s: T.Stacks, ax: map<(Element, string), nat>, e: Element, attrs: seq<Attribute>, x: Attribute, i: nat, at: nat)
    requires |s.index| == 3 + 2 * i && T.StringAt(s.text, at, x.value) && (e, x.name) in ax && ax[(e, x.name)] == at
    ensures KeptOne(s, ax, Opening(e, attrs + [x]), i, x.name)
  {
    StoredPush(e, attrs, x, x.name);
    assert s.text[..Limit(s, i)] == s.text;
  }

  /** Closing the innermost element leaves the strings of the others where they are. */
  lemma KeptPop(s: T.Stacks, ax: map<(Element, string), nat>, open: seq<Opening>)
    requires Literals(s) && Kept(s, ax, open) && |s.index| == 1 + 2 * |open| && open != [] && T.Sound(s)
    ensures Literals(T.Apply(s, T.Pop)) && Kept(T.Apply(s, T.Pop), ax, open[..|open| - 1])
  {
    var s' := T.Apply(s, T.Pop);
    var n := |s.index| - 1;
    hide Attributes, T.StringAt, Stored;
    assert s.index[n] <= |s.text| && LiteralsEnd <= s.index[n];
    assert s'.text[..LiteralsEnd] == s.text[..LiteralsEnd];
    assert Literals(s');
    forall i, a | 0 <= i < |open| - 1 && a in Attributes(open[i].e) ensures KeptOne(s', ax, open[i], i, a) {
      hide Literals;
      assert KeptOne(s, ax, open[i], i, a);
      assert Limit(s', i) == Limit(s, i) == s.index[2 * i + 4] <= s.index[n];
      assert s'.text[..Limit(s', i)] == s.text[..Limit(s, i)];
    }
  }

  /** Offsets tell given attributes from missing ones. */
  ghost predicate Offsets(ax: map<(Element, string), nat>, e: Element, attrs: seq<Attribute>) {
    forall a :: a in Attributes(e) ==>
      (e, a) in ax && if Has(attrs, a) then ax[(e, a)] >= LiteralsEnd else ax[(e, a)] == DefaultOffset(e, a)
  }

  lemma OffsetsPush(ax: map<(Element, string), nat>, e: Element, attrs: seq<Attribute>, x: Attribute, at: nat)
    requires Offsets(ax, e, attrs) && at >= LiteralsEnd
    ensures Offsets(ax[(e, x.name) := at], e, attrs + [x])
  {
    hide Attributes, DefaultOffset;
    forall a ensures Has(attrs + [x], a) <==> Has(attrs, a) || x.name == a { HasPush(attrs, x, a); }
    hide Has;
  }

  lemma HasPush(attrs: seq<Attribute>, x: Attribute, a: string)
    ensures Has(attrs + [x], a) <==> Has(attrs, a) || x.name == a
  {
    var w := attrs + [x];
    assert w[|attrs|] == x && forall i :: 0 <= i < |attrs| ==> w[i] == attrs[i];
  }

  lemma RepeatsPush(e: Element, attrs: seq<Attribute>, x: Attribute)
    ensures Repeats(e, attrs + [x]) <==> Repeats(e, attrs) || (x.name in Attributes(e) && Has(attrs, x.name))
  {
    hide Attributes;
    var w := attrs + [x];
    assert w[|attrs|] == x && forall i :: 0 <= i < |attrs| ==> w[i] == attrs[i];
  }

  lemma RequiredOffsets(ax: map<(Element, string), nat>, e: Element, attrs: seq<Attribute>)
    requires Offsets(ax, e, attrs)
    ensures forall a :: a in Required(e) ==> (e, a) in ax && (ax[(e, a)] == 0 <==> !Has(attrs, a))
  {
    hide Has;
  }

  lemma NotOpenYet(start: Start, stack: seq<Start>, open: seq<Opening>, job: bool, child: bool, e: Element)
    requires NestedIn(start, stack, open, job, child) && Allowed(e, start)
    ensures (forall i :: 0 <= i < |open| ==> open[i].e != e) && (e == Uses ==> job) && (e == Parent ==> child)
    ensures |open| + 1 == Level(e)
  {
  }

  lemma EntersElement(start: Start, stack: seq<Start>, open: seq<Opening>, job: bool, child: bool, e: Element, attrs: seq<Attribute>)
    requires NestedIn(start, stack, open, job, child) && Allowed(e, start)
    ensures NestedIn(Inside(e), stack + [start], open + [Opening(e, attrs)], job || e == Job, child || e == Child)
  {
    NotOpenYet(start, stack, open, job, child, e);
    assert open != [] ==> (stack + [start])[0] == Root;
  }

  lemma StaysInside(start: Start, stack: seq<Start>, open: seq<Opening>, job: bool, child: bool, e: Element)
    requires NestedIn(start, stack, open, job, child) && Allowed(e, start)
    ensures NestedIn(After(e, start), stack, open, job && e != Job, child && e != Child)
  {
    NotOpenYet(start, stack, open, job, child, e);
  }

  lemma LeavesElement(start: Start, stack: seq<Start>, open: seq<Opening>, job: bool, child: bool, e: Element)
    requires NestedIn(start, stack, open, job, child) && Closable(start, e)
    ensures open != [] && open[|open| - 1].e == e
    ensures var n := |open| - 1; NestedIn(After(e, stack[n]), stack[..n], open[..n], job && e != Job, child && e != Child)
  {
    var n := |open| - 1;
    assert Allowed(e, stack[n]);
  }

  class Processor {
    const tb: T.TextBuffers
    var start: Start
    var stack: seq<Start>
    var job: bool                          // the current job is not null
    var child: bool                        // the current child is not null
    var ax: map<(Element, string), nat>    // offsets of the attribute strings
    var choices: map<string, Choice>       // enumerated attributes of the last file
    var calls: seq<Call>                   // calls made to the handlers
    ghost var open: seq<Opening>

    ghost function St(): State reads this, tb { State(start, stack, |tb.index|, job, child) }

    ghost predicate Buffered() reads this, tb, tb.chars {
      tb.Valid() && |tb.index| == 1 + 2 * |open| && Literals(tb.Contents()) && Kept(tb.Contents(), ax, open)
    }

    ghost predicate Valid() reads this, tb, tb.chars { Buffered() && NestedIn(start, stack, open, job, child) }

    constructor ()
      ensures Valid() && St() == Initial && calls == [] && fresh(tb) && fresh(tb.chars)
    {
      start, stack, job, child, ax, choices, calls, open := Prolog, [], false, false, map[], DefaultChoices(Uses), [], [];
      tb := new T.TextBuffers();
      new;
      hide T.StringAt, Literals, Packed;
      StoreAll(tb, LiteralTexts);
      LiteralsStored(tb.Contents());
    }

    /** One text attribute: its value is stored and its offset recorded. */
    method StoreText(e: Element, x: Attribute, ghost front: seq<Opening>, ghost given: seq<Attribute>)
      requires Buffered() && open == front + [Opening(e, given)] && Offsets(ax, e, given)
      requires forall i :: 0 <= i < |front| ==> front[i].e != e
      modifies this`ax, this`open, tb`chars, tb`bnext, tb.chars
      ensures tb.chars == old(tb.chars) || fresh(tb.chars)
      ensures Buffered() && open == front + [Opening(e, given + [x])] && Offsets(ax, e, given + [x])
    {
      hide Attributes, Kept, Literals, Offsets, T.StringAt;
      ghost var was, wasAx := tb.Contents(), ax;
      var at := tb.PutString(x.value);
      ax := ax[(e, x.name) := at];
      OffsetsPushed(was, wasAx, e, given, x);
      KeptAttribute(was, wasAx, front, e, given, x, tb.Contents());
      open := front + [Opening(e, given + [x])];
    }

    /** The attributes of a start tag: text ones at most once, enumerated ones with a value of theirs. */
    method ReadAttributes(e: Element, attrs: seq<Attribute>, ghost front: seq<Opening>) returns (ok: bool)
      requires Buffered() && open == front + [Opening(e, [])] && Offsets(ax, e, []) && (e == Uses ==> choices == Choices(e, []))
      requires forall i :: 0 <= i < |front| ==> front[i].e != e
      modifies this`ax, this`choices, this`open, tb`chars, tb`bnext, tb.chars
      ensures tb.chars == old(tb.chars) || fresh(tb.chars)
      ensures ok <==> Known(e, attrs) && !Repeats(e, attrs)
      ensures ok ==> Buffered() && open == front + [Opening(e, attrs)] && Offsets(ax, e, attrs)
      ensures ok && e == Uses ==> choices == Choices(e, attrs)
    {
      hide Attributes, Options, Kept, Literals, Offsets, Has, Known, Repeats, Choices, T.StringAt;
      var i, isset: set<string> := 0, {};
      NothingGiven(e);
      while i < |attrs|
        invariant i <= |attrs| && Buffered() && open == front + [Opening(e, attrs[..i])] && Offsets(ax, e, attrs[..i])
        invariant tb.chars == old(tb.chars) || fresh(tb.chars)
        invariant Known(e, attrs[..i]) && !Repeats(e, attrs[..i])
        invariant forall a :: a in isset <==> a in Attributes(e) && Has(attrs[..i], a)
        invariant e == Uses ==> choices == Choices(e, attrs[..i])
      {
        var x := attrs[i];
        assert attrs[..i + 1] == attrs[..i] + [x];
        OneMoreAttribute(e, attrs, i);
        if x.name in Attributes(e) {
          if x.name in isset { return false; }
          isset := isset + {x.name};
          StoreText(e, x, front, attrs[..i]);
        } else {
          if !IsOption(e, x) { return false; }
          OffsetsChoice(ax, e, attrs[..i], x);
          KeptChoice(tb.Contents(), ax, front, e, attrs[..i], x);
          choices := choices[x.name := Chosen(x.value)];
          open := front + [Opening(e, attrs[..i] + [x])];
        }
        i := i + 1;
      }
      assert attrs[..|attrs|] == attrs;
      ok := true;
    }

    /** The attribute strings of the innermost element, as its handler reads them in the buffer. */
    method ReadValues(e: Element, ghost attrs: seq<Attribute>) returns (values: map<string, string>)
      requires Buffered() && open != [] && open[|open| - 1] == Opening(e, attrs)
      ensures values == Values(e, attrs)
    {
      hide Attributes, Kept, Literals, T.StringAt, T.CString, Stored;
      values := map[];
      var todo := Attributes(e);
      while todo != {}
        invariant todo <= Attributes(e) && values.Keys == Attributes(e) - todo
        invariant forall a :: a in values ==> values[a] == T.CString(Stored(e, attrs, a))
        decreases todo
      {
        var a :| a in todo;
        KeptString(tb.Contents(), ax, open, a);
        var v := tb.ReadString(ax[(e, a)], Stored(e, attrs, a));
        values := values[a := v];
        todo := todo - {a};
      }
    }

    /** Calls the start handler; that of a file or of a parent needs the current job or child. */
    method CallStart(e: Element, ghost attrs: seq<Attribute>)
      requires Buffered() && open != [] && open[|open| - 1] == Opening(e, attrs)
      requires (e == Uses ==> job && choices == Choices(e, attrs)) && (e == Parent ==> child)
      modifies this`calls, this`job, this`child
      ensures calls == old(calls) + [StartCall(e, Values(e, attrs), Choices(e, attrs))]
      ensures job == (old(job) || e == Job) && child == (old(child) || e == Child)
    {
      hide Values, Kept, Literals, Choices;
      var values := ReadValues(e, attrs);
      NoChoices(e, attrs);
      calls := calls + [StartCall(e, values, if e == Uses then choices else map[])];
      if e == Job { job := true; }
      if e == Child { child := true; }
    }

    /** A required attribute has not been given. */
    method Missing(e: Element, ghost attrs: seq<Attribute>) returns (missing: bool)
      requires Offsets(ax, e, attrs)
      ensures missing <==> exists a :: a in Required(e) && !Has(attrs, a)
    {
      hide Offsets, Has;
      RequiredOffsets(ax, e, attrs);
      missing := exists a :: a in Required(e) && ax[(e, a)] == 0;
    }

    /** Opens the element with default values for its attributes. */
    method PushElement(e: Element)
      requires Buffered() && forall i :: 0 <= i < |open| ==> open[i].e != e
      modifies this`ax, this`choices, this`open, tb`index
      ensures Buffered() && open == old(open) + [Opening(e, [])] && Offsets(ax, e, []) && (e == Uses ==> choices == Choices(e, []))
    {
      hide Kept, Literals, Offsets, Defaults;
      KeptPush(tb.Contents(), ax, open, e);
      DefaultOffsets(ax, e);
      ax := ax + Defaults(e);
      if e == Uses { choices := DefaultChoices(e); }
      tb.PushBuffer(0);
      open := open + [Opening(e, [])];
    }

    method ReadStart(e: Element, attrs: seq<Attribute>) returns (ok: bool)
      requires Buffered() && forall i :: 0 <= i < |open| ==> open[i].e != e
      modifies this`ax, this`choices, this`open, tb, tb.chars
      ensures tb.chars == old(tb.chars) || fresh(tb.chars)
      ensures ok <==> Proper(e, attrs)
      ensures ok ==> Buffered() && open == old(open) + [Opening(e, attrs)] && (e == Uses ==> choices == Choices(e, attrs))
    {
      hide Kept, Literals, Offsets, Has, Known, Repeats, Required, Choices;
      PushElement(e);
      ok := ReadAttributes(e, attrs, old(open));
      if ok {
        var missing := Missing(e, attrs);
        ok := !missing;
      }
    }

    /** The attributes are read in a start condition of their own. */
    method ReadTag(e: Element, attrs: seq<Attribute>) returns (ok: bool)
      requires Buffered() && forall i :: 0 <= i < |open| ==> open[i].e != e
      modifies this`start, this`stack, this`ax, this`choices, this`open, tb, tb.chars
      ensures tb.chars == old(tb.chars) || fresh(tb.chars)
      ensures ok <==> Proper(e, attrs)
      ensures ok ==> Buffered() && open == old(open) + [Opening(e, attrs)] && (e == Uses ==> choices == Choices(e, attrs))
      ensures ok ==> start == old(start) && stack == old(stack)
    {
      hide Kept, Literals, Proper, Choices;
      start, stack := AttributeList(e), stack + [start];
      ok := ReadStart(e, attrs);
      if ok { start, stack := stack[|stack| - 1], stack[..|stack| - 1]; }
    }

    /** A start tag up to its last character. */
    method OpenTag(e: Element, attrs: seq<Attribute>) returns (ok: bool)
      requires Valid()
      modifies this, tb, tb.chars
      ensures tb.chars == old(tb.chars) || fresh(tb.chars)
      ensures ok <==> Allowed(e, old(start)) && Proper(e, attrs)
      ensures ok ==> Buffered() && open == old(open) + [Opening(e, attrs)] && start == old(start) && stack == old(stack)
      ensures ok ==> job == (old(job) || e == Job) && child == (old(child) || e == Child)
      ensures ok ==> calls == old(calls) + [StartCall(e, Values(e, attrs), Choices(e, attrs))]
    {
      hide Kept, Literals, Proper, Allowed, NestedIn, Values, Choices, Attributes, Options;
      if !Allowed(e, start) { return false; }
      NotOpenYet(start, stack, open, job, child, e);
      ok := ReadTag(e, attrs);
      if ok { CallStart(e, attrs); }
    }

    /** The end of an element, back in the start condition it was found in. */
    method CloseTag(e: Element)
      requires Buffered() && open != []
      modifies this`calls, this`job, this`child, this`start, this`open, tb`index, tb`bnext
      ensures Buffered() && open == old(open)[..|old(open)| - 1] && start == After(e, old(start))
      ensures job == (old(job) && e != Job) && child == (old(child) && e != Child) && calls == old(calls) + [EndCall(e)]
    {
      hide Kept, Literals;
      calls := calls + [EndCall(e)];
      if e == Job { job := false; }
      if e == Child { child := false; }
      KeptPop(tb.Contents(), ax, open);
      var tag := tb.PopBuffer();
      open := open[..|open| - 1];
      start := After(e, start);
    }

    /** One token of the document. */
    method Step(t: Tag) returns (ok: bool)
      requires Valid()
      modifies this, tb, tb.chars
      ensures tb.chars == old(tb.chars) || fresh(tb.chars)
      ensures ok ==> Valid() && Next(old(St()), EventOf(t)) == Running(St()) && calls == old(calls) + CallsOf(t)
      ensures !ok ==> Next(old(St()), EventOf(t)) == Rejected
    {
      hide Kept, Literals, NestedIn, Allowed, Proper, Values, Choices, Next, Closable;
      NextCases(St(), t);
      match t {
        case Declare =>
          ok := start == Prolog;
          if ok {
            RootNext(start, stack, open, job, child);
            start := Root;
          }
        case Begin(e, attrs) => ok := StepBegin(e, attrs);
        case Empty(e, attrs) => ok := StepEmpty(e, attrs);
        case Finish(e) => ok := StepFinish(e);
        case Other => ok := false;
      }
    }

    method StepBegin(e: Element, attrs: seq<Attribute>) returns (ok: bool)
      requires Valid()
      modifies this, tb, tb.chars
      ensures tb.chars == old(tb.chars) || fresh(tb.chars)
      ensures ok <==> Allowed(e, old(start)) && Proper(e, attrs)
      ensures ok ==> Valid() && Next(old(St()), STag(e)) == Running(St()) && calls == old(calls) + [StartCall(e, Values(e, attrs), Choices(e, attrs))]
    {
      hide Kept, Literals, NestedIn, Allowed, Proper, Values, Choices, Next;
      ok := OpenTag(e, attrs);
      if ok {
        NotOpenYet(start, stack, old(open), old(job), old(child), e);
        NextBegin(old(St()), e);
        EntersElement(start, stack, old(open), old(job), old(child), e, attrs);
        start, stack := Inside(e), stack + [start];
      }
    }

    method StepEmpty(e: Element, attrs: seq<Attribute>) returns (ok: bool)
      requires Valid()
      modifies this, tb, tb.chars
      ensures tb.chars == old(tb.chars) || fresh(tb.chars)
      ensures ok <==> Allowed(e, old(start)) && Proper(e, attrs)
      ensures ok ==> Valid() && Next(old(St()), ShortTag(e)) == Running(St()) && calls == old(calls) + [StartCall(e, Values(e, attrs), Choices(e, attrs)), EndCall(e)]
    {
      hide Kept, Literals, NestedIn, Allowed, Proper, Values, Choices, Next, After;
      ok := OpenTag(e, attrs);
      if ok {
        NotOpenYet(start, stack, old(open), old(job), old(child), e);
        NextEmpty(old(St()), e);
        StaysInside(start, stack, old(open), old(job), old(child), e);
        NeverNested(start, stack, old(open), old(job), old(child), e);
        CloseTag(e);
      }
    }

    method StepFinish(e: Element) returns (ok: bool)
      requires Valid()
      modifies this, tb, tb.chars
      ensures tb.chars == old(tb.chars)
      ensures ok <==> Closable(old(start), e)
      ensures ok ==> Valid() && Next(old(St()), ETag(e)) == Running(St()) && calls == old(calls) + [EndCall(e)]
    {
      hide Kept, Literals, NestedIn, Next, After, Closable;
      ok := Closable(start, e);
      if ok {
        LeavesElement(start, stack, open, job, child, e);
        StackMatches(start, stack, open, job, child);
        NextFinish(St(), e);
        start, stack := stack[|stack| - 1], stack[..|stack| - 1];
        CloseTag(e);
      }
    }

    /** Reads a whole document. The result is 0 exactly for the documents of the DTD, and the declaration alone;
        the handlers are then called with the attributes written in the document, or their default values. */
    method Lex(tags: seq<Tag>) returns (code: int)
      requires Valid() && St() == Initial && calls == []
      modifies this, tb, tb.chars
      ensures code == 0 <==> Document(Events(tags))
      ensures code == 0 ==> calls == Calls(tags)
    {
      hide Next, Run, Document, Events, Calls, CallsOf, NestedIn, Kept, Literals;
      var i := 0;
      StartEvents(tags);
      while i < |tags|
        invariant i <= |tags| && Valid() && (tb.chars == old(tb.chars) || fresh(tb.chars))
        invariant Run(Initial, Events(tags[..i])) == Running(St()) && calls == Calls(tags[..i])
      {
        MoreEvents(tags, i, St());
        var epilog := start == Epilog;
        var ok := Step(tags[i]);
        if !ok {
          RejectedDocument(tags, i);
          return if epilog then -1 else 1;
        }
        i := i + 1;
      }
      assert tags[..|tags|] == tags;
      AcceptsIffDocument(Events(tags));
      code := if SucceedsAtEof(start) then 0 else 1;
    }
  }

  lemma NextCases(s: State, t: Tag)
    ensures t.Declare? ==> Next(s, EventOf(t)) == if s.start == Prolog then Running(s.(start := Root)) else Rejected
    ensures (t.Begin? || t.Empty?) && !(Allowed(t.e, s.start) && Proper(t.e, t.attrs)) ==> Next(s, EventOf(t)) == Rejected
    ensures t.Finish? && !Closable(s.start, t.e) ==> Next(s, EventOf(t)) == Rejected
    ensures t.Other? ==> Next(s, EventOf(t)) == Rejected
  {
    hide Proper, Closable;
  }

  lemma RootNext(start: Start, stack: seq<Start>, open: seq<Opening>, job: bool, child: bool)
    requires NestedIn(start, stack, open, job, child) && start == Prolog
    ensures NestedIn(Root, stack, open, job, child)
  {
  }

  lemma NothingGiven(e: Element)
    ensures Known(e, []) && !Repeats(e, []) && forall a :: !Has([], a)
  {
  }

  lemma OneMoreAttribute(e: Element, attrs: seq<Attribute>, i: nat)
    requires i < |attrs| && Known(e, attrs[..i]) && !Repeats(e, attrs[..i])
    ensures attrs[i].name !in Attributes(e) && !IsOption(e, attrs[i]) ==> !Known(e, attrs)
    ensures attrs[i].name in Attributes(e) && Has(attrs[..i], attrs[i].name) ==> Repeats(e, attrs)
    ensures Known(e, attrs[..i + 1]) <==> attrs[i].name in Attributes(e) || IsOption(e, attrs[i])
    ensures Repeats(e, attrs[..i + 1]) <==> attrs[i].name in Attributes(e) && Has(attrs[..i], attrs[i].name)
    ensures forall a :: Has(attrs[..i + 1], a) <==> Has(attrs[..i], a) || attrs[i].name == a
    ensures Choices(e, attrs[..i + 1]) ==
            if IsOption(e, attrs[i]) then Choices(e, attrs[..i])[attrs[i].name := Chosen(attrs[i].value)] else Choices(e, attrs[..i])
    ensures attrs[i].name in Attributes(e) ==> !IsOption(e, attrs[i])
  {
    assert attrs[..i + 1] == attrs[..i] + [attrs[i]] && attrs[..i + 1][..i] == attrs[..i];
    OptionsApart(e, attrs[i]);
    if attrs[i].name in Attributes(e) && Has(attrs[..i], attrs[i].name) { RepeatsAt(e, attrs, i); }
    RepeatsPush(e, attrs[..i], attrs[i]);
    hide Attributes, IsOption, DefaultChoices, Repeats;
    forall a ensures Has(attrs[..i + 1], a) <==> Has(attrs[..i], a) || attrs[i].name == a { HasPush(attrs[..i], attrs[i], a); }
    hide Has;
  }

  lemma RepeatsAt(e: Element, attrs: seq<Attribute>, i: nat)
    requires i < |attrs| && attrs[i].name in Attributes(e) && Has(attrs[..i], attrs[i].name)
    ensures Repeats(e, attrs)
  {
    hide Attributes;
    var j :| 0 <= j < i && attrs[..i][j].name == attrs[i].name;
    assert attrs[j].name == attrs[i].name;
  }

  lemma OptionsApart(e: Element, x: Attribute)
    ensures x.name in Attributes(e) ==> !IsOption(e, x)
  {
  }

  lemma NoChoices(e: Element, attrs: seq<Attribute>)
    ensures e != Uses ==> Choices(e, attrs) == map[]
  {
  }

  lemma OffsetsChoice(ax: map<(Element, string), nat>, e: Element, attrs: seq<Attribute>, x: Attribute)
    requires Offsets(ax, e, attrs) && x.name !in Attributes(e)
    ensures Offsets(ax, e, attrs + [x])
  {
    hide Attributes, DefaultOffset;
    forall a ensures Has(attrs + [x], a) <==> Has(attrs, a) || x.name == a { HasPush(attrs, x, a); }
    hide Has;
  }

  lemma KeptChoice(s: T.Stacks, ax: map<(Element, string), nat>, front: seq<Opening>, e: Element, attrs: seq<Attribute>, x: Attribute)
    requires Kept(s, ax, front + [Opening(e, attrs)]) && x.name !in Attributes(e)
    ensures Kept(s, ax, front + [Opening(e, attrs + [x])])
  {
    hide Attributes, KeptOne;
    var open, open' := front + [Opening(e, attrs)], front + [Opening(e, attrs + [x])];
    forall i, a | 0 <= i < |open'| && a in Attributes(open'[i].e) ensures KeptOne(s, ax, open'[i], i, a) {
      assert KeptOne(s, ax, open[i], i, a);
      if i == |front| {
        StoredPush(e, attrs, x, a);
        KeptSame(s, ax, Opening(e, attrs), Opening(e, attrs + [x]), i, a);
      } else {
        assert open[i] == front[i] == open'[i];
      }
    }
  }

  lemma OffsetsPushed(s: T.Stacks, ax: map<(Element, string), nat>, e: Element, attrs: seq<Attribute>, x: Attribute)
    requires Literals(s) && Offsets(ax, e, attrs)
    ensures Offsets(ax[(e, x.name) := |s.text|], e, attrs + [x])
  {
    hide Offsets;
    LiteralsFit(s);
    OffsetsPush(ax, e, attrs, x, |s.text|);
  }

  lemma DefaultOffsets(ax: map<(Element, string), nat>, e: Element)
    ensures Offsets(ax + Defaults(e), e, [])
  {
    hide Attributes, DefaultOffset;
    forall a | a in Attributes(e) ensures (e, a) in Defaults(e) && Defaults(e)[(e, a)] == DefaultOffset(e, a) { }
  }

  lemma KeptString(s: T.Stacks, ax: map<(Element, string), nat>, open: seq<Opening>, a: string)
    requires Kept(s, ax, open) && open != [] && |s.index| == 1 + 2 * |open| && a in Attributes(open[|open| - 1].e)
    ensures var o := open[|open| - 1]; (o.e, a) in ax && T.StringAt(s.text, ax[(o.e, a)], Stored(o.e, o.attrs, a))
  {
    hide Attributes, T.StringAt, Stored;
    assert KeptOne(s, ax, open[|open| - 1], |open| - 1, a);
    assert s.text[..|s.text|] == s.text;
  }

  /** Inside an element no other of the same kind is current. */
  lemma NeverNested(start: Start, stack: seq<Start>, open: seq<Opening>, job: bool, child: bool, e: Element)
    requires NestedIn(start, stack, open, job, child) && Allowed(e, start)
    ensures (e == Job ==> !job) && (e == Child ==> !child)
  {
  }

  lemma StackMatches(start: Start, stack: seq<Start>, open: seq<Opening>, job: bool, child: bool)
    requires NestedIn(start, stack, open, job, child)
    ensures |stack| == |open|
  {
  }

  lemma StartEvents(tags: seq<Tag>)
    ensures Run(Initial, Events(tags[..0])) == Running(Initial) && Calls(tags[..0]) == []
  {
  }

  /** The calls of a tag come after those of the tags before it: the start handler for a start tag, the end handler for
      an end tag, both for an empty-element tag. */
  lemma CallsPlace(tags: seq<Tag>, p: nat) returns (k: nat)
    requires p < |tags|
    ensures k == |Calls(tags[..p])| && Calls(tags[..p]) <= Calls(tags)
    ensures match tags[p]
            case Begin(e, attrs) => k < |Calls(tags)| && Calls(tags)[k] == StartCall(e, Values(e, attrs), Choices(e, attrs))
            case Empty(e, attrs) =>
              k + 1 < |Calls(tags)| && Calls(tags)[k] == StartCall(e, Values(e, attrs), Choices(e, attrs)) && Calls(tags)[k + 1] == EndCall(e)
            case Finish(e) => k < |Calls(tags)| && Calls(tags)[k] == EndCall(e)
            case _ => true
    ensures |Calls(tags[..p + 1])| == k + match tags[p] case Begin(_, _) => 1 case Empty(_, _) => 2 case Finish(_) => 1 case _ => 0
  {
    hide Values, Choices, Calls;
    CallsPrefix(tags, p);
    CallsPrefix(tags, p + 1);
    CallsNext(tags, p);
    k := |Calls(tags[..p])|;
    var c := CallsOf(tags[p]);
    assert forall i :: 0 <= i < |c| ==> Calls(tags)[k + i] == Calls(tags[..p + 1])[k + i] == c[i];
  }

  lemma CallsNext(tags: seq<Tag>, p: nat)
    requires p < |tags|
    ensures Calls(tags[..p + 1]) == Calls(tags[..p]) + CallsOf(tags[p])
  {
    hide CallsOf;
    assert tags[..p + 1][..p] == tags[..p];
  }

  lemma {:induction false} CallsPrefix(tags: seq<Tag>, p: nat)
    requires p <= |tags|
    ensures Calls(tags[..p]) <= Calls(tags)
  {
    hide CallsOf;
    if p < |tags| {
      var n := |tags| - 1;
      CallsPrefix(tags[..n], p);
      assert tags[..n][..p] == tags[..p];
    } else {
      assert tags[..p] == tags;
    }
  }

  lemma MoreEvents(tags: seq<Tag>, i: nat, s: State)
    requires i < |tags| && Run(Initial, Events(tags[..i])) == Running(s)
    ensures Run(Initial, Events(tags[..i + 1])) == Next(s, EventOf(tags[i]))
    ensures Calls(tags[..i + 1]) == Calls(tags[..i]) + CallsOf(tags[i])
  {
    hide Next, EventOf, CallsOf;
    var es := Events(tags[..i + 1]);
    assert es[..|es| - 1] == Events(tags[..i]) && es[i] == EventOf(tags[i]);
    assert tags[..i + 1][..i] == tags[..i];
  }

  lemma RejectedDocument(tags: seq<Tag>, i: nat)
    requires i < |tags| && Run(Initial, Events(tags[..i + 1])) == Rejected
    ensures !Document(Events(tags))
  {
    AcceptsIffDocument(Events(tags));
    var es := Events(tags);
    assert es[..i + 1] == Events(tags[..i + 1]);
    assert es[..i + 1] + es[i + 1..] == es;
    RunConcat(Initial, es[..i + 1], es[i + 1..]);
  }

  function Packed(vs: seq<string>): seq<char> {
    if vs == [] then [] else Packed(vs[..|vs| - 1]) + vs[|vs| - 1] + [T.Nul]
  }

  const LiteralTexts: seq<string> := [Schema, Instance, Location, "1.0", "0.0", "data"]

  method StoreAll(tb: T.TextBuffers, vs: seq<string>)
    requires tb.Valid()
    modifies tb`chars, tb`bnext, tb.chars
    ensures tb.Valid() && (tb.chars == old(tb.chars) || fresh(tb.chars))
    ensures tb.Contents() == old(tb.Contents()).(text := old(tb.Contents()).text + Packed(vs))
  {
    hide T.StringAt, T.Sound, Packed;
    var i := 0;
    PackedNothing();
    while i < |vs|
      invariant i <= |vs| && tb.Valid() && (tb.chars == old(tb.chars) || fresh(tb.chars))
      invariant tb.Contents() == old(tb.Contents()).(text := old(tb.Contents()).text + Packed(vs[..i]))
    {
      PackedNext(vs, i);
      ghost var was := tb.Contents().text;
      var at := tb.PutString(vs[i]);
      assert tb.Contents().text == was + vs[i] + [T.Nul];
      i := i + 1;
    }
    assert vs[..|vs|] == vs;
  }

  lemma PackedNext(vs: seq<string>, i: nat)
    requires i < |vs|
    ensures Packed(vs[..i + 1]) == Packed(vs[..i]) + vs[i] + [T.Nul]
  {
    assert vs[..i + 1][..i] == vs[..i];
  }

  lemma {:induction false} PackedAt(vs: seq<string>, k: nat)
    requires k < |vs|
    ensures T.StringAt([T.Nul] + Packed(vs), 1 + |Packed(vs[..k])|, vs[k])
  {
    var n := |vs| - 1;
    if k < n {
      PackedAt(vs[..n], k);
      assert vs[..n][..k] == vs[..k];
      T.StringKept([T.Nul] + Packed(vs[..n]), [T.Nul] + Packed(vs), 1 + |Packed(vs[..k])|, vs[k]);
    } else {
      StoredAt([T.Nul] + Packed(vs[..n]), vs[n], [T.Nul] + Packed(vs));
    }
  }

  lemma PackedLength(vs: seq<string>, k: nat)
    requires k < |vs|
    ensures |Packed(vs[..k + 1])| == |Packed(vs[..k])| + |vs[k]| + 1
  {
    assert vs[..k + 1][..k] == vs[..k];
  }

  lemma LiteralLengths()
    ensures |Schema| == 33 && |Instance| == 41 && |Location| == 75
  {
  }

  /** The literals are where the default offsets expect them. */
  lemma LiteralsStored(s: T.Stacks)
    requires s.index == [0] && s.text == [T.Nul] + Packed(LiteralTexts)
    ensures Literals(s)
  {
    LiteralLengths();
    hide T.StringAt, Packed, Schema, Instance, Location;
    var vs := LiteralTexts;
    forall k | 0 <= k < 6 ensures T.StringAt([T.Nul] + Packed(vs), 1 + |Packed(vs[..k])|, vs[k]) { PackedAt(vs, k); }
    PackedNothing();
    forall k | 0 <= k < 6 ensures |Packed(vs[..k + 1])| == |Packed(vs[..k])| + |vs[k]| + 1 { PackedLength(vs, k); }
    assert vs[..0] == [] && vs[..6] == vs;
    assert |Packed(vs[..1])| == 34 && |Packed(vs[..2])| == 76 && |Packed(vs[..3])| == 152;
    assert |Packed(vs[..4])| == 156 && |Packed(vs[..5])| == 160 && |Packed(vs[..6])| == 165;
    assert s.text[..LiteralsEnd] == s.text;
    EmptyAtZero(s.text);
  }

  lemma PackedNothing()
    ensures Packed([]) == []
  {
  }

  lemma EmptyAtZero(t: seq<char>)
    requires t != [] && t[0] == T.Nul
    ensures T.StringAt(t, 0, "")
  {
  }

  lemma StoredAt(t: seq<char>, v: string, u: seq<char>)
    requires t + v + [T.Nul] <= u
    ensures T.StringAt(u, |t|, v)
  {
    var w := t + v + [T.Nul];
    assert w[|t|..|t| + |v|] == v && w[|t| + |v|] == T.Nul;
    T.StringKept(w, u, |t|, v);
  }
}
