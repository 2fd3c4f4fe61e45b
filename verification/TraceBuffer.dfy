/** The buffer of trace events, kept sorted by time stamp, and what ends up printed over a whole run. */
module TraceBuffer {

  /** `id` numbers the events in the order of their creation. */
  datatype Event<P> = Event(id: nat, time: real, what: P)

  // ----- Insertion -----

  /** After the last event that is not later. */
  function Insert<P>(q: seq<Event<P>>, e: Event<P>): seq<Event<P>> {
    if q == [] || q[|q| - 1].time <= e.time then q + [e]
    else Insert(q[..|q| - 1], e) + [q[|q| - 1]]
  }

  function InsertAll<P>(q: seq<Event<P>>, es: seq<Event<P>>): seq<Event<P>> {
    if es == [] then q else Insert(InsertAll(q, es[..|es| - 1]), es[|es| - 1])
  }

  lemma {:induction false} InsertIndex<P>(q: seq<Event<P>>, e: Event<P>, i: nat)
    requires i <= |q| && (forall k :: i <= k < |q| ==> q[k].time > e.time) && (i > 0 ==> q[i - 1].time <= e.time)
    ensures Insert(q, e) == q[..i] + [e] + q[i..]
  {
    var n := |q| - 1;
    if i < |q| {
      InsertIndex(q[..n], e, i);
      assert q[..n][..i] == q[..i] && q[..n][i..] + [q[n]] == q[i..];
    }
  }

  lemma {:induction false} InsertKeeps<P>(q: seq<Event<P>>, e: Event<P>)
    ensures multiset(Insert(q, e)) == multiset(q) + multiset{e}
  {
    if q == [] || q[|q| - 1].time <= e.time {
    } else {
      var n := |q| - 1;
      InsertKeeps(q[..n], e);
      assert q == q[..n] + [q[n]];
    }
  }

  lemma {:induction false} InsertAllKeeps<P>(q: seq<Event<P>>, es: seq<Event<P>>)
    ensures multiset(InsertAll(q, es)) == multiset(q) + multiset(es)
  {
    hide Insert;
    if es != [] {
      var n := |es| - 1;
      var p := InsertAll(q, es[..n]);
      InsertAllKeeps(q, es[..n]);
      InsertKeeps(p, es[n]);
      assert es == es[..n] + [es[n]];
      assert multiset(es) == multiset(es[..n]) + multiset{es[n]};
    }
  }

  // ----- Stable order -----

  predicate Before<P>(a: Event<P>, b: Event<P>) { a.time < b.time || (a.time == b.time && a.id < b.id) }

  ghost predicate StablySorted<P>(q: seq<Event<P>>) {
    forall i, j :: 0 <= i < j < |q| ==> Before(q[i], q[j])
  }

  ghost predicate Numbered<P>(es: seq<Event<P>>) {
    forall i :: 0 <= i < |es| ==> es[i].id == i
  }

  lemma {:induction false} InsertSorts<P>(q: seq<Event<P>>, e: Event<P>)
    requires StablySorted(q) && forall x :: x in q ==> x.id < e.id
    ensures StablySorted(Insert(q, e))
  {
    if q == [] || q[|q| - 1].time <= e.time {
      forall i | 0 <= i < |q| ensures Before(q[i], e) {
        assert q[i] in q;
        assert i == |q| - 1 || Before(q[i], q[|q| - 1]);
      }
    } else {
      var n := |q| - 1;
      InsertSorts(q[..n], e);
      InsertKeeps(q[..n], e);
      forall x | x in Insert(q[..n], e) ensures Before(x, q[n]) {
        assert x in multiset(Insert(q[..n], e));
      }
    }
  }

  /** Inserting the events in creation order sorts them stably. */
  lemma {:induction false} InsertAllSorts<P>(es: seq<Event<P>>)
    requires Numbered(es)
    ensures StablySorted(InsertAll([], es))
  {
    if es != [] {
      var n := |es| - 1;
      InsertAllSorts(es[..n]);
      InsertAllKeeps([], es[..n]);
      forall x | x in InsertAll([], es[..n]) ensures x.id < es[n].id {
        assert x in multiset(InsertAll([], es[..n]));
        assert x in es[..n];
      }
      InsertSorts(InsertAll([], es[..n]), es[n]);
    }
  }

  lemma DropLast<P>(q: seq<Event<P>>)
    requires q != []
    ensures multiset(q[..|q| - 1]) == multiset(q) - multiset{q[|q| - 1]}
    ensures q == q[..|q| - 1] + [q[|q| - 1]]
    ensures StablySorted(q) ==> StablySorted(q[..|q| - 1])
  {
    assert q == q[..|q| - 1] + [q[|q| - 1]];
  }

  /** There is only one stable sort. */
  lemma {:induction false} StableSortUnique<P>(p: seq<Event<P>>, q: seq<Event<P>>)
    requires StablySorted(p) && StablySorted(q) && multiset(p) == multiset(q)
    ensures p == q
  {
    hide StablySorted;
    if p != [] {
      assert |p| == |multiset(p)| == |q|;
      var n := |p| - 1;
      LastIsLatest(p, q);
      DropLast(p);
      DropLast(q);
      StableSortUnique(p[..n], q[..n]);
    } else {
      assert |multiset(q)| == |q|;
    }
  }

  lemma LastIsLatest<P>(p: seq<Event<P>>, q: seq<Event<P>>)
    requires StablySorted(p) && StablySorted(q) && multiset(p) == multiset(q) && |p| == |q| > 0
    ensures p[|p| - 1] == q[|q| - 1]
  {
    var n := |p| - 1;
    forall x | x in p ensures x == p[n] || Before(x, p[n]) { var i :| 0 <= i <= n && p[i] == x; }
    forall x | x in q ensures x == q[n] || Before(x, q[n]) { var i :| 0 <= i <= n && q[i] == x; }
    assert p[n] in multiset(q) && q[n] in multiset(p);
  }

  /** Events not later than the new one can be set aside. */
  lemma {:induction false} InsertAfter<P>(p: seq<Event<P>>, q: seq<Event<P>>, e: Event<P>)
    requires forall x :: x in p ==> x.time <= e.time
    ensures Insert(p + q, e) == p + Insert(q, e)
  {
    if q == [] {
      assert p + q == p;
      if p != [] { assert p[|p| - 1] in p; }
    } else if q[|q| - 1].time <= e.time {
      assert (p + q)[|p + q| - 1] == q[|q| - 1];
    } else {
      var n := |q| - 1;
      assert (p + q)[..|p + q| - 1] == p + q[..n];
      InsertAfter(p, q[..n], e);
    }
  }

  // ----- Whole runs -----

  datatype Op<P> = Create(event: Event<P>) | Dump(until: real, force: bool)

  datatype Log<P> = Log(printed: seq<Event<P>>, buffered: seq<Event<P>>)

  /** How many leading events are due. */
  function Due<P>(q: seq<Event<P>>, until: real): (n: nat)
    ensures n <= |q|
    ensures forall k :: 0 <= k < n ==> q[k].time <= until
    ensures n < |q| ==> q[n].time > until
  {
    if q == [] || q[0].time > until then 0 else 1 + Due(q[1..], until)
  }

  function Apply<P>(l: Log<P>, op: Op<P>): Log<P> {
    match op
    case Create(e) => l.(buffered := Insert(l.buffered, e))
    case Dump(until, force) =>
      var n := if force then |l.buffered| else Due(l.buffered, until);
      Log(l.printed + l.buffered[..n], l.buffered[n..])
  }

  function Run<P>(ops: seq<Op<P>>): Log<P> {
    if ops == [] then Log([], []) else Apply(Run(ops[..|ops| - 1]), ops[|ops| - 1])
  }

  lemma RunNext<P>(ops: seq<Op<P>>, n: nat)
    requires n < |ops|
    ensures Run(ops[..n + 1]) == Apply(Run(ops[..n]), ops[n])
  {
    assert ops[..n + 1][..n] == ops[..n];
  }

  function Created<P>(ops: seq<Op<P>>): seq<Event<P>> {
    if ops == [] then []
    else Created(ops[..|ops| - 1]) + if ops[|ops| - 1].Create? then [ops[|ops| - 1].event] else []
  }

  /** In any run at all, every event created is printed or buffered, exactly once. */
  lemma {:induction false} NothingLost<P>(ops: seq<Op<P>>)
    ensures multiset(Run(ops).printed) + multiset(Run(ops).buffered) == multiset(Created(ops))
  {
    if ops != [] {
      var n := |ops| - 1;
      NothingLost(ops[..n]);
      var l := Run(ops[..n]);
      match ops[n] {
        case Create(e) => InsertKeeps(l.buffered, e);
        case Dump(until, force) =>
          var k := if force then |l.buffered| else Due(l.buffered, until);
          assert l.buffered == l.buffered[..k] + l.buffered[k..];
      }
    }
  }

  /** The dump prints events of that time. */
  predicate Prints<P>(dump: Op<P>, time: real) { dump.Dump? && (dump.force || time <= dump.until) }

  /** No event is created, then dumped, then followed by the creation of an earlier one. */
  ghost predicate Orderly<P>(ops: seq<Op<P>>) {
    forall i, j, k :: 0 <= i < j < k < |ops| && ops[i].Create? && Prints(ops[j], ops[i].event.time) && ops[k].Create? ==>
      ops[i].event.time <= ops[k].event.time
  }

  ghost predicate NotBehind<P>(printed: seq<Event<P>>, e: Event<P>) { forall x :: x in printed ==> x.time <= e.time }

  // Which events are printed

  ghost predicate Timed<P>(q: seq<Event<P>>) { forall i, j :: 0 <= i < j < |q| ==> q[i].time <= q[j].time }

  lemma InsertedIn<P>(q: seq<Event<P>>, e: Event<P>, x: Event<P>)
    ensures x in Insert(q, e) <==> x in q || x == e
  {
    InsertKeeps(q, e);
    assert x in multiset(Insert(q, e)) <==> x in multiset(q) + multiset{e};
  }

  lemma {:induction false} InsertTimed<P>(q: seq<Event<P>>, e: Event<P>)
    requires Timed(q)
    ensures Timed(Insert(q, e))
  {
    if q != [] && q[|q| - 1].time > e.time {
      var n := |q| - 1;
      InsertTimed(q[..n], e);
      forall x | x in Insert(q[..n], e) ensures x.time <= q[n].time {
        InsertedIn(q[..n], e, x);
      }
    }
  }

  lemma {:induction false} BufferTimed<P>(ops: seq<Op<P>>)
    ensures Timed(Run(ops).buffered)
  {
    if ops != [] {
      var n := |ops| - 1;
      BufferTimed(ops[..n]);
      if ops[n].Create? { InsertTimed(Run(ops[..n]).buffered, ops[n].event); }
    }
  }

  /** In a sorted buffer, exactly the events that are due are dumped. */
  lemma DumpedIn<P>(q: seq<Event<P>>, dump: Op<P>, x: Event<P>)
    requires Timed(q) && dump.Dump?
    ensures var n := if dump.force then |q| else Due(q, dump.until);
            && (x in q[..n] <==> x in q && Prints(dump, x.time))
            && (x in q[n..] ==> x in q)
  {
    var n := if dump.force then |q| else Due(q, dump.until);
    if x in q && Prints(dump, x.time) {
      var k :| 0 <= k < |q| && q[k] == x;
      assert k < n;
      assert q[..n][k] == x;
    }
  }

  lemma {:induction false} CreatedIn<P>(ops: seq<Op<P>>, x: Event<P>)
    ensures x in Created(ops) <==> Create(x) in ops
  {
    if ops != [] {
      var n := |ops| - 1;
      CreatedIn(ops[..n], x);
      assert ops == ops[..n] + [ops[n]];
      assert Create(x) in ops <==> Create(x) in ops[..n] || Create(x) == ops[n];
    }
  }

  lemma LoggedIn<P>(ops: seq<Op<P>>, x: Event<P>)
    ensures Create(x) in ops <==> x in Run(ops).printed || x in Run(ops).buffered
  {
    hide Run, Created;
    CreatedIn(ops, x);
    NothingLost(ops);
    var l := Run(ops);
    assert x in multiset(Created(ops)) <==> x in multiset(l.printed) + multiset(l.buffered);
  }

  ghost predicate DumpedAfter<P>(ops: seq<Op<P>>, x: Event<P>) {
    exists i, j :: 0 <= i < j < |ops| && ops[i] == Create(x) && Prints(ops[j], x.time)
  }

  /** An event is printed exactly when a dump that prints its time comes after its creation. */
  lemma {:induction false} PrintedIff<P>(ops: seq<Op<P>>, x: Event<P>)
    ensures x in Run(ops).printed <==> DumpedAfter(ops, x)
  {
    if ops != [] {
      var n := |ops| - 1;
      var front, l := ops[..n], Run(ops[..n]);
      PrintedIff(front, x);
      LoggedIn(front, x);
      BufferTimed(front);
      if ops[n].Dump? { DumpedIn(l.buffered, ops[n], x); }
      DumpedNext(ops, x);
      hide DumpedAfter, Insert, Due, Timed;
    }
  }

  lemma DumpedNext<P>(ops: seq<Op<P>>, x: Event<P>)
    requires ops != []
    ensures var front, op := ops[..|ops| - 1], ops[|ops| - 1];
            DumpedAfter(ops, x) <==> DumpedAfter(front, x) || (Create(x) in front && Prints(op, x.time))
  {
    var n := |ops| - 1;
    var front, op := ops[..n], ops[n];
    if DumpedAfter(front, x) {
      var i, j :| 0 <= i < j < |front| && front[i] == Create(x) && Prints(front[j], x.time);
      assert ops[i] == Create(x) && Prints(ops[j], x.time);
    }
    if Create(x) in front && Prints(op, x.time) {
      var i :| 0 <= i < n && front[i] == Create(x);
      assert ops[i] == Create(x) && Prints(ops[n], x.time);
    }
    if DumpedAfter(ops, x) {
      var i, j :| 0 <= i < j < |ops| && ops[i] == Create(x) && Prints(ops[j], x.time);
      assert front[i] == Create(x);
      if j < n { assert Prints(front[j], x.time); }
    }
  }

  /** In an orderly run, no event is created earlier than one already printed, and conversely. */
  lemma OrderlyIff<P>(ops: seq<Op<P>>)
    ensures Orderly(ops) <==> forall k :: 0 <= k < |ops| && ops[k].Create? ==> NotBehind(Run(ops[..k]).printed, ops[k].event)
  {
    if Orderly(ops) {
      forall k, x | 0 <= k < |ops| && ops[k].Create? && x in Run(ops[..k]).printed ensures x.time <= ops[k].event.time {
        PrintedIff(ops[..k], x);
        var i, j :| 0 <= i < j < k && ops[..k][i] == Create(x) && Prints(ops[..k][j], x.time);
        assert ops[i] == Create(x) && Prints(ops[j], x.time);
      }
    }
    if forall k :: 0 <= k < |ops| && ops[k].Create? ==> NotBehind(Run(ops[..k]).printed, ops[k].event) {
      forall i, j, k | 0 <= i < j < k < |ops| && ops[i].Create? && Prints(ops[j], ops[i].event.time) && ops[k].Create?
        ensures ops[i].event.time <= ops[k].event.time
      {
        var x := ops[i].event;
        assert ops[..k][i] == Create(x) && Prints(ops[..k][j], x.time);
        PrintedIff(ops[..k], x);
        assert NotBehind(Run(ops[..k]).printed, ops[k].event);
      }
    }
  }

  lemma OrderlyPrefix<P>(ops: seq<Op<P>>, n: nat)
    requires Orderly(ops) && n <= |ops|
    ensures Orderly(ops[..n])
  {
    assert forall k :: 0 <= k < n ==> ops[..n][k] == ops[k];
  }

  /** In an orderly run, what is printed followed by what is buffered is the sorted sequence of all events. */
  lemma {:induction false} OrderlyRunSorts<P>(ops: seq<Op<P>>)
    requires Orderly(ops)
    ensures Run(ops).printed + Run(ops).buffered == InsertAll([], Created(ops))
  {
    if ops != [] {
      var n := |ops| - 1;
      OrderlyPrefix(ops, n);
      OrderlyIff(ops);
      OrderlyRunSorts(ops[..n]);
      assert ops[..n + 1] == ops && Run(ops) == Apply(Run(ops[..n]), ops[n]);
      OrderlyStep(Run(ops[..n]), Created(ops[..n]), ops[n]);
    }
  }

  lemma OrderlyStep<P>(l: Log<P>, es: seq<Event<P>>, op: Op<P>)
    requires l.printed + l.buffered == InsertAll([], es) && (op.Create? ==> NotBehind(l.printed, op.event))
    ensures var m := Apply(l, op);
            m.printed + m.buffered == InsertAll([], es + if op.Create? then [op.event] else [])
  {
    hide Insert;
    match op
    case Create(e) =>
      InsertAfter(l.printed, l.buffered, e);
      assert (es + [e])[..|es|] == es;
    case Dump(until, force) =>
      var k := if force then |l.buffered| else Due(l.buffered, until);
      assert (l.printed + l.buffered[..k]) + l.buffered[k..] == l.printed + l.buffered;
      assert es + [] == es;
  }

  lemma {:induction false} PrintedGrows<P>(ops: seq<Op<P>>, n: nat)
    requires n <= |ops|
    ensures Run(ops[..n]).printed <= Run(ops).printed
  {
    if n < |ops| {
      var m := |ops| - 1;
      PrintedGrows(ops[..m], n);
      assert ops[..m][..n] == ops[..n];
    } else {
      assert ops[..n] == ops;
    }
  }

  function Closed<P>(ops: seq<Op<P>>, until: real): seq<Op<P>> { ops + [Dump(until, true)] }

  lemma ClosedPrintsAll<P>(ops: seq<Op<P>>, until: real)
    ensures Run(Closed(ops, until)).printed == Run(ops).printed + Run(ops).buffered
    ensures Created(Closed(ops, until)) == Created(ops)
  {
    assert Closed(ops, until)[..|ops|] == ops;
    assert Run(ops).buffered[..|Run(ops).buffered|] == Run(ops).buffered;
  }

  /** An event created behind a printed one ends up after it. */
  lemma LateIsUnsorted<P>(ops: seq<Op<P>>, k: nat, x: Event<P>)
    requires k < |ops| && ops[k].Create? && x in Run(ops[..k]).printed && x.time > ops[k].event.time
    ensures !StablySorted(Run(ops).printed + Run(ops).buffered)
  {
    var l, e := Run(ops[..k]), ops[k].event;
    assert ops[..k + 1][..k] == ops[..k];
    var m := Run(ops[..k + 1]);
    assert m == Log(l.printed, Insert(l.buffered, e));
    InsertKeeps(l.buffered, e);
    assert e in multiset(m.buffered);
    LateStaysLate(ops, k + 1, x, e);
  }

  lemma Inverted<P>(q: seq<Event<P>>, i: nat, j: nat)
    requires i < j < |q| && q[i].time > q[j].time
    ensures !StablySorted(q)
  {
    assert !Before(q[i], q[j]);
  }

  /** Once both are printed in the wrong order, or about to be, they stay so. */
  lemma PrintedInverted<P>(ops: seq<Op<P>>, n: nat, i: nat, j: nat)
    requires n <= |ops| && i < j < |Run(ops[..n]).printed|
    requires Run(ops[..n]).printed[i].time > Run(ops[..n]).printed[j].time
    ensures !StablySorted(Run(ops).printed + Run(ops).buffered)
  {
    PrintedGrows(ops, n);
    var p, q := Run(ops[..n]).printed, Run(ops).printed + Run(ops).buffered;
    assert q[i] == p[i] && q[j] == p[j];
    Inverted(q, i, j);
  }

  ghost predicate HasInversion<P>(q: seq<Event<P>>) {
    exists i, j :: 0 <= i < j < |q| && q[i].time > q[j].time
  }

  /** A step leaves the late event buffered, or prints it after the one it should precede. */
  lemma LateStep<P>(l: Log<P>, op: Op<P>, x: Event<P>, e: Event<P>)
    requires x in l.printed && e in l.buffered && x.time > e.time
    ensures var m := Apply(l, op); x in m.printed && (e in m.buffered || HasInversion(m.printed))
  {
    var m := Apply(l, op);
    var i :| 0 <= i < |l.printed| && l.printed[i] == x;
    var j :| 0 <= j < |l.buffered| && l.buffered[j] == e;
    match op
    case Create(f) =>
      InsertKeeps(l.buffered, f);
      assert e in multiset(m.buffered);
    case Dump(until, force) =>
      var k := |m.printed| - |l.printed|;
      assert m.printed[i] == x;
      if j < k { assert m.printed[|l.printed| + j] == e; } else { assert m.buffered[j - k] == e; }
  }

  lemma {:induction false} LateStaysLate<P>(ops: seq<Op<P>>, n: nat, x: Event<P>, e: Event<P>)
    requires n <= |ops| && x in Run(ops[..n]).printed && e in Run(ops[..n]).buffered && x.time > e.time
    ensures !StablySorted(Run(ops).printed + Run(ops).buffered)
    decreases |ops| - n
  {
    hide Run, Insert, StablySorted, Apply;
    var l := Run(ops[..n]);
    if n == |ops| {
      assert ops[..n] == ops;
      var i :| 0 <= i < |l.printed| && l.printed[i] == x;
      var j :| 0 <= j < |l.buffered| && l.buffered[j] == e;
      Inverted(l.printed + l.buffered, i, |l.printed| + j);
    } else {
      RunNext(ops, n);
      LateStep(l, ops[n], x, e);
      var p := Run(ops[..n + 1]).printed;
      if e in Run(ops[..n + 1]).buffered {
        LateStaysLate(ops, n + 1, x, e);
      } else {
        var i, j :| 0 <= i < j < |p| && p[i].time > p[j].time;
        PrintedInverted(ops, n + 1, i, j);
      }
    }
  }

  /** A run closed by a forced dump prints the stable sort of all events by time stamp exactly when it is orderly. */
  lemma ClosedRunSortsIff<P>(ops: seq<Op<P>>, until: real)
    requires Numbered(Created(ops))
    ensures Run(Closed(ops, until)).printed == InsertAll([], Created(ops)) <==> Orderly(ops)
    ensures Orderly(ops) <==> StablySorted(Run(Closed(ops, until)).printed)
  {
    ClosedPrintsAll(ops, until);
    InsertAllSorts(Created(ops));
    OrderlyIff(ops);
    if Orderly(ops) {
      OrderlyRunSorts(ops);
    } else {
      var k :| 0 <= k < |ops| && ops[k].Create? && !NotBehind(Run(ops[..k]).printed, ops[k].event);
      var x :| x in Run(ops[..k]).printed && x.time > ops[k].event.time;
      LateIsUnsorted(ops, k, x);
    }
  }

  // ----- The simulation clock -----

  /** Dumps never go back in time, and events are not created before the last dump. */
  ghost predicate Clocked<P>(ops: seq<Op<P>>) {
    && (forall i, j :: 0 <= i < j < |ops| && ops[i].Dump? && ops[j].Dump? ==> ops[i].until <= ops[j].until)
    && (forall i, j :: 0 <= i < j < |ops| && ops[i].Dump? && ops[j].Create? ==> ops[i].until <= ops[j].event.time)
  }

  /** The dump is forced and prints later events. */
  predicate Hastens<P>(dump: Op<P>, time: real) { dump.Dump? && dump.force && dump.until < time }

  /** What a forced dump prints ahead of its time is not overtaken later. */
  ghost predicate NotOvertaken<P>(ops: seq<Op<P>>) {
    forall i, j, k :: 0 <= i < j < k < |ops| && ops[i].Create? && Hastens(ops[j], ops[i].event.time) && ops[k].Create? ==>
      ops[i].event.time <= ops[k].event.time
  }

  /** Under the clock, only forced dumps can spoil the order. */
  lemma ClockedOrderlyIff<P>(ops: seq<Op<P>>)
    requires Clocked(ops)
    ensures Orderly(ops) <==> NotOvertaken(ops)
    ensures (forall j :: 0 <= j < |ops| && ops[j].Dump? ==> !ops[j].force) ==> Orderly(ops)
  {
    if NotOvertaken(ops) {
      forall i, j, k | 0 <= i < j < k < |ops| && ops[i].Create? && Prints(ops[j], ops[i].event.time) && ops[k].Create?
        ensures ops[i].event.time <= ops[k].event.time
      {
        if ops[i].event.time <= ops[j].until { assert ops[j].until <= ops[k].event.time; }
      }
    }
    if Orderly(ops) {
      forall i, j, k | 0 <= i < j < k < |ops| && ops[i].Create? && Hastens(ops[j], ops[i].event.time) && ops[k].Create?
        ensures ops[i].event.time <= ops[k].event.time
      {
        assert Prints(ops[j], ops[i].event.time);
      }
    }
  }

  /** A container destroyed at time 1 while an event at time 10 is buffered, and then an event at time 2. */
  function LateRun<P>(p: P): seq<Op<P>> {
    [Create(Event(0, 0.0, p)), Create(Event(1, 10.0, p)), Dump(1.0, true), Create(Event(2, 2.0, p))]
  }

  /** The clock alone does not keep the printed events in order. */
  lemma ClockNotEnough<P>(p: P, until: real)
    ensures Clocked(LateRun(p)) && !Orderly(LateRun(p)) && !StablySorted(Run(Closed(LateRun(p), until)).printed)
  {
    hide LateRun, Run, Created, StablySorted, InsertAll, Orderly, Clocked, Closed;
    LateRunTold(p);
    CreatedFour(p);
    ClosedRunSortsIff(LateRun(p), until);
  }

  lemma LateRunTold<P>(p: P)
    ensures Clocked(LateRun(p)) && !Orderly(LateRun(p))
  {
    var ops := LateRun(p);
    assert ops[1].event.time > ops[3].event.time && Prints(ops[2], ops[1].event.time);
  }

  lemma CreatedFour<P>(p: P)
    ensures Created(LateRun(p)) == [Event(0, 0.0, p), Event(1, 10.0, p), Event(2, 2.0, p)]
  {
    var ops := LateRun(p);
    assert ops[..3] == [ops[0], ops[1], ops[2]] && ops[..3][..2] == [ops[0], ops[1]] && [ops[0], ops[1]][..1] == [ops[0]];
    assert [ops[0]][..0] == [];
    assert Created([ops[0]]) == [ops[0].event];
    assert Created([ops[0], ops[1]]) == [ops[0].event, ops[1].event];
  }

  // ----- The buffer -----

  class Trace<P> {
    var buffer: seq<Event<P>>
    var printed: seq<Event<P>>
    var lastTimestampToDump: real

    function Contents(): Log<P> reads this { Log(printed, buffer) }

    constructor ()
      ensures Contents() == Log([], [])
    {
      buffer, printed, lastTimestampToDump := [], [], 0.0;
    }

    method InsertIntoBuffer(e: Event<P>)
      modifies this`buffer
      ensures Contents() == Apply(old(Contents()), Create(e))
    {
      var i := |buffer|;
      while i > 0 && buffer[i - 1].time > e.time
        invariant 0 <= i <= |buffer| && forall k :: i <= k < |buffer| ==> buffer[k].time > e.time
      {
        i := i - 1;
      }
      InsertIndex(buffer, e, i);
      buffer := buffer[..i] + [e] + buffer[i..];
    }

    /** Prints and frees what is due, or everything; does nothing when tracing is off. */
    method DumpBuffer(enabled: bool, force: bool, timeIndependent: bool)
      modifies this`buffer, this`printed
      ensures Contents() == if enabled then Apply(old(Contents()), Dump(lastTimestampToDump, force || timeIndependent))
                            else old(Contents())
    {
      if !enabled { return; }
      if force || timeIndependent {
        var i := 0;
        while i < |buffer|
          invariant 0 <= i <= |buffer| && printed == old(printed) + buffer[..i] && buffer == old(buffer)
        {
          printed := printed + [buffer[i]];
          i := i + 1;
        }
        assert buffer[..|buffer|] == buffer && buffer[|buffer|..] == [];
        buffer := [];
      } else {
        var i := 0;
        while i < |buffer| && buffer[i].time <= lastTimestampToDump
          invariant 0 <= i <= |buffer| && printed == old(printed) + buffer[..i] && buffer == old(buffer)
          invariant forall k :: 0 <= k < i ==> buffer[k].time <= lastTimestampToDump
        {
          printed := printed + [buffer[i]];
          i := i + 1;
        }
        DueIs(buffer, lastTimestampToDump, i);
        buffer := buffer[i..];
      }
    }
  }

  lemma DueIs<P>(q: seq<Event<P>>, until: real, n: nat)
    requires n <= |q| && (forall k :: 0 <= k < n ==> q[k].time <= until) && (n < |q| ==> q[n].time > until)
    ensures Due(q, until) == n
  {
  }
}
