/** Resource utilisation traced as set, add and sub events on variables, and what replaying them gives. */
module Variables {
  import opened Common
  import opened TraceBuffer

  datatype Kind = Set | Add | Sub

  /** An event on one variable of one resource. */
  datatype Change = Change(resource: string, variable: string, kind: Kind, value: real)

  /** A call of `instr_event`: `value` is used from `now` until `now + delta`. */
  datatype Call = Call(now: real, delta: real, resource: string, variable: string, value: real)

  function Key(resource: string, variable: string): string { resource + variable }

  // ----- Events emitted -----

  /** The events of one call, in the order of their creation. */
  function Emit(known: set<string>, first: nat, c: Call): seq<Event<Change>> {
    var used := [Change(c.resource, c.variable, Add, c.value), Change(c.resource, c.variable, Sub, c.value)];
    if Key(c.resource, c.variable) in known then
      [Event(first, c.now, used[0]), Event(first + 1, c.now + c.delta, used[1])]
    else
      [Event(first, c.now, Change(c.resource, c.variable, Set, 0.0)),
       Event(first + 1, c.now, used[0]), Event(first + 2, c.now + c.delta, used[1])]
  }

  function KnownKeys(calls: seq<Call>): set<string> { set c | c in calls :: Key(c.resource, c.variable) }

  // ----- Histories -----

  /** What happens to the trace: a call, or a dump of the buffer. */
  datatype Happening = Use(c: Call) | Flush(until: real, force: bool)

  function Calls(h: seq<Happening>): seq<Call> {
    if h == [] then [] else Calls(h[..|h| - 1]) + if h[|h| - 1].Use? then [h[|h| - 1].c] else []
  }

  /** The events of a call enter the buffer. */
  function Receive(l: Log<Change>, known: set<string>, c: Call): Log<Change> {
    l.(buffered := InsertAll(l.buffered, Emit(known, |l.printed| + |l.buffered|, c)))
  }

  /** What is printed and what is buffered. */
  function LogOf(h: seq<Happening>): Log<Change> {
    if h == [] then Log([], [])
    else
      var before, l := h[..|h| - 1], LogOf(h[..|h| - 1]);
      match h[|h| - 1]
      case Use(c) => Receive(l, KnownKeys(Calls(before)), c)
      case Flush(until, force) => Apply(l, Dump(until, force))
  }

  /** The whole trace, once the buffer is printed. */
  function File(h: seq<Happening>): seq<Event<Change>> { LogOf(h).printed + LogOf(h).buffered }

  // ----- Replaying a trace -----

  predicate IsFor(e: Event<Change>, r: string, x: string) { e.what.resource == r && e.what.variable == x }

  function Step(v: Option<real>, e: Event<Change>): Option<real> {
    match e.what.kind
    case Set => Some(e.what.value)
    case Add => if v.None? then None else Some(v.value + e.what.value)
    case Sub => if v.None? then None else Some(v.value - e.what.value)
  }

  /** The value of a variable once the events up to time `t` are played; it is undetermined until it is set. */
  function Replay(q: seq<Event<Change>>, r: string, x: string, t: real): Option<real> {
    if q == [] then None
    else
      var v, e := Replay(q[..|q| - 1], r, x, t), q[|q| - 1];
      if IsFor(e, r, x) && e.time <= t then Step(v, e) else v
  }

  /** What the variable should be: the sum of the values in use at time `t`. */
  function InUse(calls: seq<Call>, r: string, x: string, t: real): real {
    if calls == [] then 0.0
    else
      var c := calls[|calls| - 1];
      InUse(calls[..|calls| - 1], r, x, t) +
      if c.resource == r && c.variable == x && c.now <= t < c.now + c.delta then c.value else 0.0
  }

  // ----- Adding up a trace -----

  function Effect(e: Event<Change>, r: string, x: string, t: real): real {
    if !IsFor(e, r, x) || e.time > t || e.what.kind == Set then 0.0
    else if e.what.kind == Add then e.what.value else -e.what.value
  }

  function Net(q: seq<Event<Change>>, r: string, x: string, t: real): real {
    if q == [] then 0.0 else Net(q[..|q| - 1], r, x, t) + Effect(q[|q| - 1], r, x, t)
  }

  ghost predicate EverSet(q: seq<Event<Change>>, r: string, x: string) {
    exists e :: e in q && IsFor(e, r, x) && e.what.kind == Set
  }

  /** The variable is set at most once, to zero, at time `t0`. */
  ghost predicate SetOnce(q: seq<Event<Change>>, r: string, x: string, t0: real) {
    q == [] ||
    (var e, p := q[|q| - 1], q[..|q| - 1];
     SetOnce(p, r, x, t0) && (IsFor(e, r, x) && e.what.kind == Set ==> !EverSet(p, r, x) && e.what.value == 0.0 && e.time == t0))
  }

  /** What comes too early: the events up to time `t` that stand before the variable is set. */
  ghost function Missed(q: seq<Event<Change>>, r: string, x: string, t: real): real {
    if q == [] then 0.0
    else Missed(q[..|q| - 1], r, x, t) + if EverSet(q[..|q| - 1], r, x) then 0.0 else Effect(q[|q| - 1], r, x, t)
  }

  lemma Last(p: seq<Event<Change>>, e: Event<Change>)
    ensures (p + [e])[..|p|] == p && forall f :: f in p + [e] <==> f in p || f == e
  {
  }

  lemma {:induction false} MissedUnset(q: seq<Event<Change>>, r: string, x: string, t: real)
    requires !EverSet(q, r, x)
    ensures Missed(q, r, x, t) == Net(q, r, x, t) && Replay(q, r, x, t) == None
  {
    if q != [] {
      assert q == q[..|q| - 1] + [q[|q| - 1]];
      MissedUnset(q[..|q| - 1], r, x, t);
    }
  }

  /** Replaying gives what adds up, except for what is missed. */
  lemma {:induction false} ReplayIsNet(q: seq<Event<Change>>, r: string, x: string, t0: real, t: real)
    requires SetOnce(q, r, x, t0)
    ensures Replay(q, r, x, t) == if EverSet(q, r, x) && t0 <= t then Some(Net(q, r, x, t) - Missed(q, r, x, t)) else None
  {
    if q != [] {
      var p, e := q[..|q| - 1], q[|q| - 1];
      assert q == p + [e];
      Last(p, e);
      ReplayIsNet(p, r, x, t0, t);
      if !EverSet(p, r, x) { MissedUnset(p, r, x, t); }
    }
  }

  lemma {:induction false} NetInsert(q: seq<Event<Change>>, e: Event<Change>, r: string, x: string, t: real)
    ensures Net(Insert(q, e), r, x, t) == Net(q, r, x, t) + Effect(e, r, x, t)
  {
    if q == [] || q[|q| - 1].time <= e.time {
      assert (q + [e])[..|q|] == q;
    } else {
      var n := |q| - 1;
      NetInsert(q[..n], e, r, x, t);
      var p := Insert(q[..n], e);
      assert (p + [q[n]])[..|p|] == p;
    }
  }

  lemma {:induction false} NetConcat(p: seq<Event<Change>>, q: seq<Event<Change>>, r: string, x: string, t: real)
    ensures Net(p + q, r, x, t) == Net(p, r, x, t) + Net(q, r, x, t)
  {
    if q == [] {
      assert p + q == p;
    } else {
      assert (p + q)[..|p + q| - 1] == p + q[..|q| - 1];
      NetConcat(p, q[..|q| - 1], r, x, t);
    }
  }

  // ----- One event enters the buffer -----

  lemma SetIn(p: seq<Event<Change>>, q: seq<Event<Change>>, e: Event<Change>, r: string, x: string)
    ensures EverSet(p + Insert(q, e), r, x) <==> EverSet(p + q, r, x) || (IsFor(e, r, x) && e.what.kind == Set)
  {
    forall f ensures f in p + Insert(q, e) <==> f in p + q || f == e { InsertedIn(q, e, f); }
    if EverSet(p + q, r, x) {
      var f :| f in p + q && IsFor(f, r, x) && f.what.kind == Set;
      assert f in p + Insert(q, e);
    }
  }

  lemma {:induction false} SetOnceInsert(p: seq<Event<Change>>, q: seq<Event<Change>>, e: Event<Change>, r: string, x: string, t0: real)
    requires SetOnce(p + q, r, x, t0)
    requires IsFor(e, r, x) && e.what.kind == Set ==> !EverSet(p + q, r, x) && e.what.value == 0.0 && e.time == t0
    ensures SetOnce(p + Insert(q, e), r, x, t0)
  {
    if q == [] || q[|q| - 1].time <= e.time {
      assert p + (q + [e]) == (p + q) + [e];
      Last(p + q, e);
    } else {
      var n := |q| - 1;
      var front, z := q[..n], q[n];
      assert p + q == (p + front) + [z];
      Last(p + front, z);
      SetOnceInsert(p, front, e, r, x, t0);
      assert p + (Insert(front, e) + [z]) == (p + Insert(front, e)) + [z];
      Last(p + Insert(front, e), z);
      SetIn(p, front, e, r, x);
      hide Insert, EverSet;
    }
  }

  lemma SetBefore(q: seq<Event<Change>>, e: Event<Change>, r: string, x: string, t0: real, p: seq<Event<Change>>)
    requires Timed(q) && q != [] && q[|q| - 1].time <= e.time && SetOnce(p + q, r, x, t0) && EverSet(p + q, r, x)
    ensures EverSet(p, r, x) || e.time >= t0
  {
    if !EverSet(p, r, x) {
      var f :| f in p + q && IsFor(f, r, x) && f.what.kind == Set;
      var k :| 0 <= k < |q| && q[k] == f;
      SetTime(p + q, r, x, t0, f);
    }
  }

  lemma {:induction false} SetTime(q: seq<Event<Change>>, r: string, x: string, t0: real, f: Event<Change>)
    requires SetOnce(q, r, x, t0) && f in q && IsFor(f, r, x) && f.what.kind == Set
    ensures f.time == t0
  {
    if f != q[|q| - 1] {
      assert q == q[..|q| - 1] + [q[|q| - 1]];
      SetTime(q[..|q| - 1], r, x, t0, f);
    }
  }

  /** An event is missed exactly when it comes before the setting of its variable, and that is still buffered. */
  lemma {:induction false} MissedInsert(p: seq<Event<Change>>, q: seq<Event<Change>>, e: Event<Change>, r: string, x: string, t0: real, t: real)
    requires SetOnce(p + q, r, x, t0) && EverSet(p + q, r, x) && Timed(q) && !(IsFor(e, r, x) && e.what.kind == Set)
    ensures Missed(p + Insert(q, e), r, x, t) ==
            Missed(p + q, r, x, t) + if EverSet(p, r, x) || e.time >= t0 then 0.0 else Effect(e, r, x, t)
    decreases |q|, 0
  {
    if q == [] || q[|q| - 1].time <= e.time {
      assert p + (q + [e]) == (p + q) + [e];
      Last(p + q, e);
      if q != [] { SetBefore(q, e, r, x, t0, p); } else { assert p + q == p; }
    } else {
      var n := |q| - 1;
      var front, z := q[..n], q[n];
      assert p + q == (p + front) + [z];
      assert p + (Insert(front, e) + [z]) == (p + Insert(front, e)) + [z];
      Last(p + front, z);
      Last(p + Insert(front, e), z);
      SetIn(p, front, e, r, x);
      MissedStep(p, front, z, e, r, x, t0, t);
    }
  }

  lemma MissedStep(p: seq<Event<Change>>, q: seq<Event<Change>>, z: Event<Change>, e: Event<Change>, r: string, x: string, t0: real, t: real)
    requires SetOnce(p + q + [z], r, x, t0) && EverSet(p + q + [z], r, x) && Timed(q) && !(IsFor(e, r, x) && e.what.kind == Set)
    requires z.time > e.time
    ensures Missed(p + Insert(q, e) + [z], r, x, t) ==
            Missed(p + q + [z], r, x, t) + if EverSet(p, r, x) || e.time >= t0 then 0.0 else Effect(e, r, x, t)
    decreases |q|, 1
  {
    Last(p + q, z);
    Last(p + Insert(q, e), z);
    SetIn(p, q, e, r, x);
    if EverSet(p + q, r, x) {
      MissedInsert(p, q, e, r, x, t0, t);
      hide Insert, EverSet, SetOnce;
    } else {
      MissedUnset(p + q, r, x, t);
      MissedUnset(p + Insert(q, e), r, x, t);
      NetConcat(p, q, r, x, t);
      NetConcat(p, Insert(q, e), r, x, t);
      NetInsert(q, e, r, x, t);
      assert IsFor(z, r, x) && z.what.kind == Set && z.time == t0;
      assert forall f :: f in p ==> f in p + q;
      hide Insert, EverSet, SetOnce, Net;
    }
  }

  // ----- The events of a call enter the buffer -----

  lemma InsertTwo(q: seq<Event<Change>>, a: Event<Change>, b: Event<Change>)
    ensures InsertAll(q, [a, b]) == Insert(Insert(q, a), b)
  {
    assert [a, b][..1] == [a] && [a][..0] == [];
    assert InsertAll(q, [a]) == Insert(InsertAll(q, []), a);
  }

  lemma InsertThree(q: seq<Event<Change>>, a: Event<Change>, b: Event<Change>, c: Event<Change>)
    ensures InsertAll(q, [a, b, c]) == Insert(Insert(Insert(q, a), b), c)
  {
    assert [a, b, c][..2] == [a, b];
    InsertTwo(q, a, b);
  }

  lemma NetEmit(q: seq<Event<Change>>, known: set<string>, first: nat, c: Call, r: string, x: string, t: real)
    requires c.delta >= 0.0
    ensures Net(InsertAll(q, Emit(known, first, c)), r, x, t) ==
            Net(q, r, x, t) + if c.resource == r && c.variable == x && c.now <= t < c.now + c.delta then c.value else 0.0
  {
    hide Insert, Net;
    var es := Emit(known, first, c);
    if Key(c.resource, c.variable) in known {
      InsertTwo(q, es[0], es[1]);
      NetInsert(q, es[0], r, x, t);
      NetInsert(Insert(q, es[0]), es[1], r, x, t);
    } else {
      InsertThree(q, es[0], es[1], es[2]);
      NetInsert(q, es[0], r, x, t);
      NetInsert(Insert(q, es[0]), es[1], r, x, t);
      NetInsert(Insert(Insert(q, es[0]), es[1]), es[2], r, x, t);
    }
  }

  /** The variable is set once, by an event of time `t0`, and the buffer is sorted. */
  ghost predicate Settled(p: seq<Event<Change>>, q: seq<Event<Change>>, r: string, x: string, t0: real) {
    SetOnce(p + q, r, x, t0) && EverSet(p + q, r, x) && Timed(q)
  }

  lemma SettledInsert(p: seq<Event<Change>>, q: seq<Event<Change>>, e: Event<Change>, r: string, x: string, t0: real, t: real)
    requires Settled(p, q, r, x, t0) && !(IsFor(e, r, x) && e.what.kind == Set)
    ensures Settled(p, Insert(q, e), r, x, t0)
    ensures Missed(p + Insert(q, e), r, x, t) ==
            Missed(p + q, r, x, t) + if EverSet(p, r, x) || e.time >= t0 then 0.0 else Effect(e, r, x, t)
  {
    SetOnceInsert(p, q, e, r, x, t0);
    SetIn(p, q, e, r, x);
    InsertTimed(q, e);
    MissedInsert(p, q, e, r, x, t0, t);
  }

  /** The call starts before `t0` and is not over then. */
  predicate Straddles(c: Call, t0: real) { c.now < t0 <= c.now + c.delta }

  lemma EmitSettled(p: seq<Event<Change>>, q: seq<Event<Change>>, known: set<string>, first: nat, c: Call, r: string, x: string,
                    t0: real, t: real)
    requires Settled(p, q, r, x, t0) && c.delta >= 0.0 && t0 <= t && (c.resource == r && c.variable == x ==> Key(r, x) in known)
    ensures Settled(p, InsertAll(q, Emit(known, first, c)), r, x, t0)
    ensures Missed(p + InsertAll(q, Emit(known, first, c)), r, x, t) == Missed(p + q, r, x, t) +
            if c.resource == r && c.variable == x && !EverSet(p, r, x) && Straddles(c, t0) then c.value else 0.0
  {
    hide Settled, Missed, Insert, EverSet;
    var es := Emit(known, first, c);
    if Key(c.resource, c.variable) in known {
      InsertTwo(q, es[0], es[1]);
      SettledInsert(p, q, es[0], r, x, t0, t);
      SettledInsert(p, Insert(q, es[0]), es[1], r, x, t0, t);
    } else {
      InsertThree(q, es[0], es[1], es[2]);
      SettledInsert(p, q, es[0], r, x, t0, t);
      SettledInsert(p, Insert(q, es[0]), es[1], r, x, t0, t);
      SettledInsert(p, Insert(Insert(q, es[0]), es[1]), es[2], r, x, t0, t);
    }
  }

  /** No event on the variable. */
  ghost predicate Quiet(q: seq<Event<Change>>, r: string, x: string) { forall e :: e in q ==> !IsFor(e, r, x) }

  lemma {:induction false} QuietMissed(q: seq<Event<Change>>, r: string, x: string, t0: real, t: real)
    requires Quiet(q, r, x)
    ensures SetOnce(q, r, x, t0) && !EverSet(q, r, x) && Missed(q, r, x, t) == 0.0
  {
    if q != [] {
      assert q == q[..|q| - 1] + [q[|q| - 1]];
      QuietMissed(q[..|q| - 1], r, x, t0, t);
    }
  }

  lemma {:induction false} OnlySetMissed(p: seq<Event<Change>>, q: seq<Event<Change>>, e: Event<Change>, r: string, x: string, t: real)
    requires Quiet(p + q, r, x) && e.what.kind == Set
    ensures Missed(p + Insert(q, e), r, x, t) == 0.0
  {
    forall f ensures f in p + Insert(q, e) <==> f in p + q || f == e { InsertedIn(q, e, f); }
    NoEffect(p + Insert(q, e), r, x, t);
  }

  lemma {:induction false} NoEffect(q: seq<Event<Change>>, r: string, x: string, t: real)
    requires forall e :: e in q ==> Effect(e, r, x, t) == 0.0
    ensures Missed(q, r, x, t) == 0.0
  {
    if q != [] {
      assert q == q[..|q| - 1] + [q[|q| - 1]];
      NoEffect(q[..|q| - 1], r, x, t);
    }
  }

  lemma EmitFirst(p: seq<Event<Change>>, q: seq<Event<Change>>, known: set<string>, first: nat, c: Call, t: real)
    requires Quiet(p + q, c.resource, c.variable) && Timed(q) && c.delta >= 0.0 && Key(c.resource, c.variable) !in known
    ensures var q' := InsertAll(q, Emit(known, first, c));
            Settled(p, q', c.resource, c.variable, c.now) && (c.now <= t ==> Missed(p + q', c.resource, c.variable, t) == 0.0)
  {
    hide Insert;
    var es, r, x, t0 := Emit(known, first, c), c.resource, c.variable, c.now;
    InsertThree(q, es[0], es[1], es[2]);
    QuietMissed(p + q, r, x, t0, t);
    SetOnceInsert(p, q, es[0], r, x, t0);
    SetIn(p, q, es[0], r, x);
    InsertTimed(q, es[0]);
    OnlySetMissed(p, q, es[0], r, x, t);
    hide Settled, Missed, EverSet;
    SettledInsert(p, Insert(q, es[0]), es[1], r, x, t0, t);
    SettledInsert(p, Insert(Insert(q, es[0]), es[1]), es[2], r, x, t0, t);
  }

  lemma {:induction false} AllTimed(q: seq<Event<Change>>, es: seq<Event<Change>>)
    requires Timed(q)
    ensures Timed(InsertAll(q, es))
  {
    if es != [] {
      AllTimed(q, es[..|es| - 1]);
      InsertTimed(InsertAll(q, es[..|es| - 1]), es[|es| - 1]);
    }
  }

  lemma EmittedFor(known: set<string>, first: nat, c: Call, e: Event<Change>, r: string, x: string)
    requires e in Emit(known, first, c) && IsFor(e, r, x)
    ensures c.resource == r && c.variable == x && (e.what.kind == Set ==> Key(r, x) !in known)
  {
  }

  lemma EmitOther(p: seq<Event<Change>>, q: seq<Event<Change>>, known: set<string>, first: nat, c: Call, r: string, x: string)
    ensures Quiet(p + q, r, x) && !(c.resource == r && c.variable == x) ==> Quiet(p + InsertAll(q, Emit(known, first, c)), r, x)
    ensures !EverSet(p + q, r, x) && (c.resource == r && c.variable == x ==> Key(r, x) in known) ==>
              !EverSet(p + InsertAll(q, Emit(known, first, c)), r, x)
  {
    var es := Emit(known, first, c);
    forall f ensures f in p + InsertAll(q, es) <==> f in p + q || f in es { AllInserted(q, es, f); }
    forall e | e in es && IsFor(e, r, x) ensures c.resource == r && c.variable == x && (e.what.kind == Set ==> Key(r, x) !in known) {
      EmittedFor(known, first, c, e, r, x);
    }
    hide Emit, InsertAll, IsFor;
  }

  lemma {:induction false} AllInserted(q: seq<Event<Change>>, es: seq<Event<Change>>, f: Event<Change>)
    ensures f in InsertAll(q, es) <==> f in q || f in es
  {
    if es != [] {
      AllInserted(q, es[..|es| - 1], f);
      InsertedIn(InsertAll(q, es[..|es| - 1]), es[|es| - 1], f);
      assert es == es[..|es| - 1] + [es[|es| - 1]];
    }
  }

  // ----- Whole histories -----

  /** Position of the first call with that key, or the number of calls. */
  function FirstWithKey(calls: seq<Call>, key: string): (i: nat)
    ensures i <= |calls|
    ensures i < |calls| ==> Key(calls[i].resource, calls[i].variable) == key
    ensures forall k :: 0 <= k < i ==> Key(calls[k].resource, calls[k].variable) != key
  {
    if calls == [] then 0
    else
      var i := FirstWithKey(calls[..|calls| - 1], key);
      if i < |calls| - 1 then i
      else if Key(calls[|calls| - 1].resource, calls[|calls| - 1].variable) == key then |calls| - 1 else |calls|
  }

  /** The variable is the first one used under its key. */
  ghost predicate Owns(calls: seq<Call>, r: string, x: string) {
    var i := FirstWithKey(calls, Key(r, x));
    i < |calls| && calls[i].resource == r && calls[i].variable == x
  }

  lemma FirstWithKeyNext(calls: seq<Call>, r: string, x: string)
    requires calls != []
    ensures var before, c := calls[..|calls| - 1], calls[|calls| - 1];
            && (Owns(before, r, x) ==> Owns(calls, r, x) && FirstWithKey(calls, Key(r, x)) == FirstWithKey(before, Key(r, x)))
            && (!Owns(before, r, x) ==>
                  (Owns(calls, r, x) <==> c.resource == r && c.variable == x && Key(r, x) !in KnownKeys(before)))
  {
    var before, key := calls[..|calls| - 1], Key(r, x);
    var i := FirstWithKey(before, key);
    if i < |before| { assert before[i] in before; }
    if key in KnownKeys(before) {
      var c :| c in before && Key(c.resource, c.variable) == key;
      var k :| 0 <= k < |before| && before[k] == c;
    }
  }

  ghost predicate Called(calls: seq<Call>, r: string, x: string) {
    exists c :: c in calls && c.resource == r && c.variable == x
  }

  /** No interval ends before it starts. */
  ghost predicate Forward(h: seq<Happening>) { forall i :: 0 <= i < |h| && h[i].Use? ==> h[i].c.delta >= 0.0 }

  /** When the variable is used first, if it is the first one under its key. */
  ghost function FirstTime(h: seq<Happening>, r: string, x: string): real {
    if Owns(Calls(h), r, x) then Calls(h)[FirstWithKey(Calls(h), Key(r, x))].now else 0.0
  }

  lemma CallsNext(h: seq<Happening>, c: Call)
    requires h != [] && h[|h| - 1] == Use(c)
    ensures Calls(h) == Calls(h[..|h| - 1]) + [c] && Calls(h)[..|Calls(h)| - 1] == Calls(h[..|h| - 1])
  {
  }

  lemma LogNext(h: seq<Happening>, c: Call)
    requires h != [] && h[|h| - 1] == Use(c)
    ensures LogOf(h) == Receive(LogOf(h[..|h| - 1]), KnownKeys(Calls(h[..|h| - 1])), c)
  {
    hide Receive;
  }

  lemma FlushKeepsFile(h: seq<Happening>)
    requires h != [] && h[|h| - 1].Flush?
    ensures File(h) == File(h[..|h| - 1]) && Calls(h) == Calls(h[..|h| - 1])
  {
    DumpKeeps(LogOf(h[..|h| - 1]), h[|h| - 1].until, h[|h| - 1].force);
    hide Apply;
  }

  lemma DumpKeeps(l: Log<Change>, until: real, force: bool)
    ensures var m := Apply(l, Dump(until, force)); m.printed + m.buffered == l.printed + l.buffered
  {
    var n := if force then |l.buffered| else Due(l.buffered, until);
    assert l.buffered == l.buffered[..n] + l.buffered[n..];
  }

  /** The events add up to what is in use, whatever is dumped when. */
  lemma {:induction false} NetIsInUse(h: seq<Happening>, r: string, x: string, t: real)
    requires Forward(h)
    ensures Net(File(h), r, x, t) == InUse(Calls(h), r, x, t)
  {
    if h != [] {
      assert forall i :: 0 <= i < |h| - 1 ==> h[..|h| - 1][i] == h[i];
      var before, l := h[..|h| - 1], LogOf(h[..|h| - 1]);
      hide Net, InUse, LogOf, Calls, Receive;
      NetIsInUse(before, r, x, t);
      match h[|h| - 1] {
        case Use(c) =>
          CallsNext(h, c);
          LogNext(h, c);
          InUseNext(Calls(before), c, r, x, t);
          NetReceive(l, KnownKeys(Calls(before)), c, r, x, t);
        case Flush(until, force) => FlushKeepsFile(h);
      }
    } else {
      NothingAtFirst(r, x, t);
    }
  }

  lemma NetReceive(l: Log<Change>, known: set<string>, c: Call, r: string, x: string, t: real)
    requires c.delta >= 0.0
    ensures var m := Receive(l, known, c);
            Net(m.printed + m.buffered, r, x, t) == Net(l.printed + l.buffered, r, x, t) +
            if c.resource == r && c.variable == x && c.now <= t < c.now + c.delta then c.value else 0.0
  {
    hide Net, InsertAll, Emit;
    NetEmit(l.buffered, known, |l.printed| + |l.buffered|, c, r, x, t);
    NetConcat(l.printed, l.buffered, r, x, t);
    NetConcat(l.printed, Receive(l, known, c).buffered, r, x, t);
  }

  lemma NothingAtFirst(r: string, x: string, t: real)
    ensures File([]) == [] && Calls([]) == [] && Net([], r, x, t) == 0.0 && InUse([], r, x, t) == 0.0
  {
  }

  lemma InUseNext(calls: seq<Call>, c: Call, r: string, x: string, t: real)
    ensures InUse(calls + [c], r, x, t) ==
            InUse(calls, r, x, t) + if c.resource == r && c.variable == x && c.now <= t < c.now + c.delta then c.value else 0.0
  {
    assert (calls + [c])[..|calls|] == calls;
  }

  lemma ReceiveTimed(l: Log<Change>, known: set<string>, c: Call)
    requires Timed(l.buffered)
    ensures Timed(Receive(l, known, c).buffered)
  {
    hide Timed;
    AllTimed(l.buffered, Emit(known, |l.printed| + |l.buffered|, c));
  }

  lemma DumpTimed(l: Log<Change>, until: real, force: bool)
    requires Timed(l.buffered)
    ensures Timed(Apply(l, Dump(until, force)).buffered)
  {
  }

  lemma {:induction false} BufferTimedAt(h: seq<Happening>)
    ensures Timed(LogOf(h).buffered)
  {
    if h != [] {
      var before, l := h[..|h| - 1], LogOf(h[..|h| - 1]);
      BufferTimedAt(before);
      hide Timed, Receive, Apply;
      match h[|h| - 1] {
        case Use(c) => ReceiveTimed(l, KnownKeys(Calls(before)), c);
        case Flush(until, force) => DumpTimed(l, until, force);
      }
    }
  }

  lemma ReceiveOther(l: Log<Change>, known: set<string>, c: Call, r: string, x: string)
    ensures var q, m := l.printed + l.buffered, Receive(l, known, c);
            && (Quiet(q, r, x) && !(c.resource == r && c.variable == x) ==> Quiet(m.printed + m.buffered, r, x))
            && (!EverSet(q, r, x) && (c.resource == r && c.variable == x ==> Key(r, x) in known) ==> !EverSet(m.printed + m.buffered, r, x))
  {
    hide Quiet, EverSet, Emit, InsertAll;
    EmitOther(l.printed, l.buffered, known, |l.printed| + |l.buffered|, c, r, x);
  }

  /** A variable that is never called has no event; one that does not own its key is never set. */
  lemma {:induction false} NotTraced(h: seq<Happening>, r: string, x: string)
    ensures !Called(Calls(h), r, x) ==> Quiet(File(h), r, x)
    ensures !Owns(Calls(h), r, x) ==> !EverSet(File(h), r, x)
  {
    if h != [] {
      var before, l := h[..|h| - 1], LogOf(h[..|h| - 1]);
      hide Quiet, EverSet, Receive, LogOf, Calls, Owns, Called;
      NotTraced(before, r, x);
      match h[|h| - 1] {
        case Use(c) =>
          CallsNext(h, c);
          LogNext(h, c);
          FirstWithKeyNext(Calls(h), r, x);
          CalledMore(Calls(before), c, r, x);
          ReceiveOther(l, KnownKeys(Calls(before)), c, r, x);
        case Flush(until, force) => FlushKeepsFile(h);
      }
    }
  }

  lemma CalledMore(calls: seq<Call>, c: Call, r: string, x: string)
    ensures Called(calls + [c], r, x) <==> Called(calls, r, x) || (c.resource == r && c.variable == x)
  {
    assert forall d :: d in calls + [c] <==> d in calls || d == c;
  }

  /** A dump after a call with the key has printed events of time `t0`. */
  ghost predicate SetDumped(h: seq<Happening>, key: string, t0: real) {
    exists i, j :: 0 <= i < j < |h| && UsesKey(h[i], key) && Reaches(h[j], t0)
  }

  predicate UsesKey(a: Happening, key: string) { a.Use? && Key(a.c.resource, a.c.variable) == key }

  predicate Reaches(a: Happening, t0: real) { a.Flush? && (a.force || t0 <= a.until) }

  /** The call is on the variable, starts before its first use and is not over then, while its setting is still buffered. */
  ghost predicate Misses(before: seq<Happening>, c: Call, r: string, x: string) {
    && c.resource == r && c.variable == x && Owns(Calls(before), r, x) && Straddles(c, FirstTime(before, r, x))
    && !SetDumped(before, Key(r, x), FirstTime(before, r, x))
  }

  /** What a replay lacks. */
  ghost function Lost(h: seq<Happening>, r: string, x: string): real {
    if h == [] then 0.0
    else Lost(h[..|h| - 1], r, x) + if h[|h| - 1].Use? && Misses(h[..|h| - 1], h[|h| - 1].c, r, x) then h[|h| - 1].c.value else 0.0
  }

  lemma {:induction false} NothingLostYet(h: seq<Happening>, r: string, x: string)
    requires !Owns(Calls(h), r, x)
    ensures Lost(h, r, x) == 0.0
  {
    if h != [] {
      if h[|h| - 1].Use? {
        CallsNext(h, h[|h| - 1].c);
        FirstWithKeyNext(Calls(h), r, x);
      } else {
        FlushKeepsFile(h);
      }
      NothingLostYet(h[..|h| - 1], r, x);
    }
  }

  lemma SetDumpedNext(h: seq<Happening>, key: string, t0: real)
    requires h != []
    ensures var before, a := h[..|h| - 1], h[|h| - 1];
            SetDumped(h, key, t0) <==> SetDumped(before, key, t0) || (Reaches(a, t0) && exists i :: 0 <= i < |before| && UsesKey(before[i], key))
  {
    var n := |h| - 1;
    var before, a := h[..n], h[n];
    if SetDumped(before, key, t0) {
      var i, j :| 0 <= i < j < |before| && UsesKey(before[i], key) && Reaches(before[j], t0);
      assert UsesKey(h[i], key) && Reaches(h[j], t0);
    }
    if Reaches(a, t0) && exists i :: 0 <= i < n && UsesKey(before[i], key) {
      var i :| 0 <= i < n && UsesKey(before[i], key);
      assert UsesKey(h[i], key) && Reaches(h[n], t0);
    }
    if SetDumped(h, key, t0) {
      var i, j :| 0 <= i < j < |h| && UsesKey(h[i], key) && Reaches(h[j], t0);
      assert UsesKey(before[i], key);
      if j < n { assert Reaches(before[j], t0); }
    }
  }

  lemma {:induction false} KeysUsed(h: seq<Happening>, key: string)
    ensures key in KnownKeys(Calls(h)) <==> exists i :: 0 <= i < |h| && UsesKey(h[i], key)
  {
    if h != [] {
      var n := |h| - 1;
      KeysUsed(h[..n], key);
      if h[n].Use? {
        CallsNext(h, h[n].c);
        assert forall d :: d in Calls(h) <==> d in Calls(h[..n]) || d == h[n].c;
      }
      if i :| 0 <= i < n && UsesKey(h[..n][i], key) { assert UsesKey(h[i], key); }
      if i :| 0 <= i < |h| && UsesKey(h[i], key) { assert i < n ==> UsesKey(h[..n][i], key); }
    }
  }

  /** An owned variable is set once, at its first use, and what stands before is what is lost. */
  lemma {:induction false} Traced(h: seq<Happening>, r: string, x: string, t: real)
    requires Forward(h) && Owns(Calls(h), r, x)
    ensures Settled(LogOf(h).printed, LogOf(h).buffered, r, x, FirstTime(h, r, x))
    ensures EverSet(LogOf(h).printed, r, x) <==> SetDumped(h, Key(r, x), FirstTime(h, r, x))
    ensures FirstTime(h, r, x) <= t ==> Missed(File(h), r, x, t) == Lost(h, r, x)
    decreases |h|, 1
  {
    var before, a := h[..|h| - 1], h[|h| - 1];
    hide Settled, EverSet, Missed, SetDumped, Owns, FirstWithKey;
    match a {
      case Use(c) =>
        CallsNext(h, c);
        FirstWithKeyNext(Calls(h), r, x);
        if Owns(Calls(before), r, x) { TracedMore(h, r, x, t); } else { TracedFirst(h, r, x, t); }
      case Flush(until, force) =>
        FlushKeepsFile(h);
        Traced(before, r, x, t);
        TracedFlush(h, r, x);
    }
  }

  lemma TracedFlush(h: seq<Happening>, r: string, x: string)
    requires h != [] && h[|h| - 1].Flush? && Owns(Calls(h), r, x) && Calls(h) == Calls(h[..|h| - 1])
    requires var l := LogOf(h[..|h| - 1]);
             Settled(l.printed, l.buffered, r, x, FirstTime(h, r, x)) &&
             (EverSet(l.printed, r, x) <==> SetDumped(h[..|h| - 1], Key(r, x), FirstTime(h, r, x)))
    ensures Settled(LogOf(h).printed, LogOf(h).buffered, r, x, FirstTime(h, r, x))
    ensures EverSet(LogOf(h).printed, r, x) <==> SetDumped(h, Key(r, x), FirstTime(h, r, x))
  {
    var before, a := h[..|h| - 1], h[|h| - 1];
    var l, t0, key := LogOf(before), FirstTime(h, r, x), Key(r, x);
    FlushKeepsFile(h);
    BufferTimedAt(h);
    KeysUsed(before, key);
    assert Calls(h)[FirstWithKey(Calls(h), key)] in Calls(before);
    SetDumpedNext(h, key, t0);
    hide SetDumped, KnownKeys, FirstTime, Owns;
    FlushSets(l, a.until, a.force, r, x, t0);
  }

  lemma FlushSets(l: Log<Change>, until: real, force: bool, r: string, x: string, t0: real)
    requires Settled(l.printed, l.buffered, r, x, t0)
    ensures EverSet(Apply(l, Dump(until, force)).printed, r, x) <==> EverSet(l.printed, r, x) || force || t0 <= until
  {
    var op: Op<Change> := Dump(until, force);
    var n := if force then |l.buffered| else Due(l.buffered, until);
    var f :| f in l.printed + l.buffered && IsFor(f, r, x) && f.what.kind == Set;
    forall e ensures e in l.buffered[..n] <==> e in l.buffered && Prints(op, e.time) { DumpedIn(l.buffered, op, e); }
    forall e | e in l.printed + l.buffered && IsFor(e, r, x) && e.what.kind == Set ensures e.time == t0 {
      SetTime(l.printed + l.buffered, r, x, t0, e);
    }
    var m := Apply(l, op);
    assert m.printed == l.printed + l.buffered[..n];
    assert forall e :: e in m.printed <==> e in l.printed || e in l.buffered[..n];
    hide SetOnce, Timed, Apply;
  }

  lemma TracedMore(h: seq<Happening>, r: string, x: string, t: real)
    requires Forward(h) && h != [] && h[|h| - 1].Use? && Owns(Calls(h[..|h| - 1]), r, x) && Owns(Calls(h), r, x)
    requires FirstWithKey(Calls(h), Key(r, x)) == FirstWithKey(Calls(h[..|h| - 1]), Key(r, x))
    ensures Settled(LogOf(h).printed, LogOf(h).buffered, r, x, FirstTime(h, r, x))
    ensures EverSet(LogOf(h).printed, r, x) <==> SetDumped(h, Key(r, x), FirstTime(h, r, x))
    ensures FirstTime(h, r, x) <= t ==> Missed(File(h), r, x, t) == Lost(h, r, x)
    decreases |h|, 0
  {
    hide Settled, EverSet, Missed, SetDumped, Owns, FirstWithKey, FirstTime, Straddles, LogOf, Lost, Calls, KnownKeys, Receive;
    var before, c := h[..|h| - 1], h[|h| - 1].c;
    var l, known, t0 := LogOf(before), KnownKeys(Calls(before)), FirstTime(before, r, x);
    assert forall i :: 0 <= i < |h| - 1 ==> before[i] == h[i];
    LogNext(h, c);
    FirstTimeNext(h, r, x);
    LostNext(h, r, x);
    SetDumpedNext(h, Key(r, x), t0);
    Traced(before, r, x, t);
    ReceiveSettled(l, known, c, r, x, t0, if t0 <= t then t else t0);
  }

  lemma FirstTimeNext(h: seq<Happening>, r: string, x: string)
    requires h != [] && h[|h| - 1].Use? && Owns(Calls(h[..|h| - 1]), r, x)
    ensures FirstTime(h, r, x) == FirstTime(h[..|h| - 1], r, x) && Key(r, x) in KnownKeys(Calls(h[..|h| - 1]))
  {
    CallsNext(h, h[|h| - 1].c);
    StillFirst(Calls(h[..|h| - 1]), h[|h| - 1].c, r, x);
    hide FirstWithKey, Calls, KnownKeys;
  }

  lemma ReceiveSettled(l: Log<Change>, known: set<string>, c: Call, r: string, x: string, t0: real, t: real)
    requires Settled(l.printed, l.buffered, r, x, t0) && c.delta >= 0.0 && t0 <= t && (c.resource == r && c.variable == x ==> Key(r, x) in known)
    ensures var m := Receive(l, known, c);
            && m.printed == l.printed && Settled(m.printed, m.buffered, r, x, t0)
            && Missed(m.printed + m.buffered, r, x, t) == Missed(l.printed + l.buffered, r, x, t) +
               if c.resource == r && c.variable == x && !EverSet(l.printed, r, x) && Straddles(c, t0) then c.value else 0.0
  {
    hide Settled, Missed, EverSet, Straddles, InsertAll, Emit;
    EmitSettled(l.printed, l.buffered, known, |l.printed| + |l.buffered|, c, r, x, t0, t);
  }

  lemma StillFirst(calls: seq<Call>, c: Call, r: string, x: string)
    requires Owns(calls, r, x)
    ensures Key(r, x) in KnownKeys(calls) && Owns(calls + [c], r, x) && FirstWithKey(calls + [c], Key(r, x)) == FirstWithKey(calls, Key(r, x))
  {
    assert (calls + [c])[..|calls|] == calls;
    assert calls[FirstWithKey(calls, Key(r, x))] in calls;
  }

  lemma LostNext(h: seq<Happening>, r: string, x: string)
    requires h != [] && h[|h| - 1].Use? && Owns(Calls(h[..|h| - 1]), r, x)
    ensures var before, c, t0 := h[..|h| - 1], h[|h| - 1].c, FirstTime(h[..|h| - 1], r, x);
            Lost(h, r, x) == Lost(before, r, x) +
            if c.resource == r && c.variable == x && !SetDumped(before, Key(r, x), t0) && Straddles(c, t0) then c.value else 0.0
  {
  }

  lemma TracedFirst(h: seq<Happening>, r: string, x: string, t: real)
    requires Forward(h) && h != [] && h[|h| - 1].Use? && !Owns(Calls(h[..|h| - 1]), r, x) && Owns(Calls(h), r, x)
    requires var c := h[|h| - 1].c; c.resource == r && c.variable == x && Key(r, x) !in KnownKeys(Calls(h[..|h| - 1]))
    ensures Settled(LogOf(h).printed, LogOf(h).buffered, r, x, FirstTime(h, r, x))
    ensures EverSet(LogOf(h).printed, r, x) <==> SetDumped(h, Key(r, x), FirstTime(h, r, x))
    ensures FirstTime(h, r, x) <= t ==> Missed(File(h), r, x, t) == Lost(h, r, x)
  {
    hide Settled, EverSet, Missed, SetDumped, Owns, FirstWithKey, FirstTime, Quiet, Timed, LogOf, Calls, Lost, Called, Receive, KnownKeys;
    var before, c := h[..|h| - 1], h[|h| - 1].c;
    var l, known := LogOf(before), KnownKeys(Calls(before));
    LogNext(h, c);
    FirstUse(h, r, x);
    NotTraced(before, r, x);
    BufferTimedAt(before);
    NothingLostYet(before, r, x);
    ReceiveFirst(l, known, c, t);
    NotDumpedYet(h, Key(r, x), c.now);
  }

  lemma FirstUse(h: seq<Happening>, r: string, x: string)
    requires h != [] && h[|h| - 1].Use? && !Owns(Calls(h[..|h| - 1]), r, x) && Owns(Calls(h), r, x)
    requires Key(r, x) !in KnownKeys(Calls(h[..|h| - 1]))
    ensures FirstTime(h, r, x) == h[|h| - 1].c.now && !Called(Calls(h[..|h| - 1]), r, x)
    ensures Lost(h, r, x) == Lost(h[..|h| - 1], r, x)
  {
    CallsNext(h, h[|h| - 1].c);
    FirstIsLast(Calls(h), r, x);
    assert Lost(h, r, x) == Lost(h[..|h| - 1], r, x);
    hide Lost, Owns, FirstWithKey, SetDumped;
  }

  lemma QuietPrefix(p: seq<Event<Change>>, q: seq<Event<Change>>, r: string, x: string)
    requires Quiet(p + q, r, x)
    ensures !EverSet(p, r, x)
  {
    assert forall e :: e in p ==> e in p + q;
  }

  lemma ReceiveFirst(l: Log<Change>, known: set<string>, c: Call, t: real)
    requires Quiet(l.printed + l.buffered, c.resource, c.variable) && Timed(l.buffered) && c.delta >= 0.0 && Key(c.resource, c.variable) !in known
    ensures var m := Receive(l, known, c);
            && Settled(m.printed, m.buffered, c.resource, c.variable, c.now) && !EverSet(m.printed, c.resource, c.variable)
            && (c.now <= t ==> Missed(m.printed + m.buffered, c.resource, c.variable, t) == 0.0)
  {
    hide Settled, Missed, EverSet, InsertAll, Emit, Quiet, Timed;
    QuietPrefix(l.printed, l.buffered, c.resource, c.variable);
    EmitFirst(l.printed, l.buffered, known, |l.printed| + |l.buffered|, c, t);
  }

  lemma NotDumpedYet(h: seq<Happening>, key: string, t0: real)
    requires h != [] && h[|h| - 1].Use? && key !in KnownKeys(Calls(h[..|h| - 1]))
    ensures !SetDumped(h, key, t0)
  {
    KeysUsed(h[..|h| - 1], key);
    assert !SetDumped(h[..|h| - 1], key, t0);
    SetDumpedNext(h, key, t0);
  }

  lemma FirstIsLast(calls: seq<Call>, r: string, x: string)
    requires calls != [] && !Owns(calls[..|calls| - 1], r, x) && Owns(calls, r, x)
    ensures FirstWithKey(calls, Key(r, x)) == |calls| - 1
  {
  }

  // ----- Main results -----

  /** Whatever is dumped when, forced or not: a variable replays, from its first use on, to the values in use except
      for what is lost; before that, and if it does not own its key, it is undetermined. */
  lemma ReplayIs(h: seq<Happening>, r: string, x: string, t: real)
    requires Forward(h)
    ensures Replay(File(h), r, x, t) ==
            if Owns(Calls(h), r, x) && FirstTime(h, r, x) <= t then Some(InUse(Calls(h), r, x, t) - Lost(h, r, x)) else None
  {
    hide Owns, Missed, Lost, InUse, Replay, Net, EverSet, SetOnce, LogOf, Calls, FirstTime, Timed, SetDumped, Forward;
    if Owns(Calls(h), r, x) {
      Traced(h, r, x, t);
      NetIsInUse(h, r, x, t);
      ReplayIsNet(File(h), r, x, FirstTime(h, r, x), t);
    } else {
      NotTraced(h, r, x);
      MissedUnset(File(h), r, x, t);
    }
  }

  /** So it replays to the values in use exactly when nothing is lost. */
  lemma ReplayRightIff(h: seq<Happening>, r: string, x: string, t: real)
    requires Forward(h) && Owns(Calls(h), r, x) && FirstTime(h, r, x) <= t
    ensures Replay(File(h), r, x, t) == Some(InUse(Calls(h), r, x, t)) <==> Lost(h, r, x) == 0.0
  {
    ReplayIs(h, r, x, t);
  }

  /** No call on the variable reaches from before its first use over it while its setting is buffered. */
  ghost predicate NoneMissed(h: seq<Happening>, r: string, x: string) {
    forall k :: 0 <= k < |h| && h[k].Use? ==> !Misses(h[..k], h[k].c, r, x)
  }

  /** With positive values, nothing is lost exactly when no call is missed. */
  lemma {:induction false} LostNothingIff(h: seq<Happening>, r: string, x: string)
    ensures NoneMissed(h, r, x) ==> Lost(h, r, x) == 0.0
    ensures (forall i :: 0 <= i < |h| && h[i].Use? && h[i].c.resource == r && h[i].c.variable == x ==> h[i].c.value > 0.0) ==>
              Lost(h, r, x) >= 0.0 && (Lost(h, r, x) == 0.0 <==> NoneMissed(h, r, x))
  {
    if h != [] {
      var n := |h| - 1;
      LostNothingIff(h[..n], r, x);
      assert forall k :: 0 <= k < n ==> h[..n][k] == h[k] && h[..n][..k] == h[..k];
      assert NoneMissed(h, r, x) <==> NoneMissed(h[..n], r, x) && !(h[n].Use? && Misses(h[..n], h[n].c, r, x));
      hide Misses, NoneMissed;
    }
  }

  /** Calls made in the order of their start lose nothing. */
  lemma InOrderLosesNothing(h: seq<Happening>, r: string, x: string)
    requires forall i, j :: 0 <= i < j < |h| && h[i].Use? && h[j].Use? ==> h[i].c.now <= h[j].c.now
    ensures Lost(h, r, x) == 0.0
  {
    forall k | 0 <= k < |h| && h[k].Use? ensures !Misses(h[..k], h[k].c, r, x) {
      if Owns(Calls(h[..k]), r, x) {
        var c := Calls(h[..k])[FirstWithKey(Calls(h[..k]), Key(r, x))];
        CallHappened(h[..k], c);
        var i :| 0 <= i < k && h[..k][i] == Use(c);
        assert h[i] == Use(c);
      }
    }
    LostNothingIff(h, r, x);
  }

  lemma {:induction false} CallHappened(h: seq<Happening>, c: Call)
    requires c in Calls(h)
    ensures exists i :: 0 <= i < |h| && h[i] == Use(c)
  {
    var n := |h| - 1;
    if h[n] != Use(c) {
      CallHappened(h[..n], c);
      var i :| 0 <= i < n && h[..n][i] == Use(c);
      assert h[i] == Use(c);
    }
  }

  const Later: Call := Call(5.0, 2.0, "host", "speed_used", 1.0)
  const Earlier: Call := Call(0.0, 10.0, "host", "speed_used", 1.0)

  /** A call that started before the first one recorded is missed from then on. */
  lemma ReplayWrong()
    ensures var h := [Use(Later), Use(Earlier)];
            Forward(h) && InUse(Calls(h), "host", "speed_used", 8.0) == 1.0 && Replay(File(h), "host", "speed_used", 8.0) == Some(0.0)
  {
    var h := [Use(Later), Use(Earlier)];
    var key := Key("host", "speed_used");
    CallsNext(h, Earlier);
    CallsNext([Use(Later)], Later);
    assert h[..1] == [Use(Later)] && [Use(Later)][..0] == [];
    assert Calls([]) == [];
    assert Calls(h) == [Later, Earlier] && Calls([Use(Later)]) == [Later];
    UsedAt8();
    FirstOfTwo();
    assert Forward(h);
    LostOne();
    hide InUse, Lost, Calls, Replay, File;
    ReplayIs(h, "host", "speed_used", 8.0);
  }

  lemma UsedAt8()
    ensures InUse([Later, Earlier], "host", "speed_used", 8.0) == 1.0
  {
    assert [Later, Earlier][..1] == [Later] && [Later][..0] == [];
    assert InUse([], "host", "speed_used", 8.0) == 0.0;
    assert InUse([Later], "host", "speed_used", 8.0) == 0.0;
  }

  lemma FirstOfTwo()
    ensures FirstWithKey([Later], Key("host", "speed_used")) == 0 && FirstWithKey([Later, Earlier], Key("host", "speed_used")) == 0
  {
    assert [Later, Earlier][..1] == [Later] && [Later][..0] == [];
  }

  lemma LostOne()
    ensures Lost([Use(Later), Use(Earlier)], "host", "speed_used") == 1.0
  {
    var h, key := [Use(Later), Use(Earlier)], Key("host", "speed_used");
    var before := [Use(Later)];
    assert h[..|h| - 1] == before && before[..0] == [];
    CallsNext(before, Later);
    assert Calls([]) == [];
    assert Calls(before) == [Later];
    FirstOfTwo();
    assert FirstTime(before, "host", "speed_used") == 5.0;
    assert !SetDumped(before, key, 5.0);
    assert Misses(before, Earlier, "host", "speed_used");
    assert !Misses([], Later, "host", "speed_used");
    assert Lost([], "host", "speed_used") == 0.0;
    assert Lost(before, "host", "speed_used") == 0.0;
  }

  /** Different variables used have different keys. */
  ghost predicate KeysDiffer(calls: seq<Call>) {
    forall c, d :: c in calls && d in calls && Key(c.resource, c.variable) == Key(d.resource, d.variable) ==>
      c.resource == d.resource && c.variable == d.variable
  }

  lemma AllOwnIff(calls: seq<Call>)
    ensures (forall c :: c in calls ==> Owns(calls, c.resource, c.variable)) <==> KeysDiffer(calls)
  {
    if KeysDiffer(calls) {
      forall c | c in calls ensures Owns(calls, c.resource, c.variable) {
        var k :| 0 <= k < |calls| && calls[k] == c;
        assert calls[FirstWithKey(calls, Key(c.resource, c.variable))] in calls;
      }
    }
  }

  /** The trace sets every variable called exactly when no two of them share a key. */
  lemma AllTracedIff(h: seq<Happening>)
    requires Forward(h)
    ensures (forall c :: c in Calls(h) ==> EverSet(File(h), c.resource, c.variable)) <==> KeysDiffer(Calls(h))
  {
    forall c | c in Calls(h) ensures EverSet(File(h), c.resource, c.variable) <==> Owns(Calls(h), c.resource, c.variable) {
      SetIffOwned(h, c.resource, c.variable);
    }
    hide EverSet, Owns, KeysDiffer, File;
    AllOwnIff(Calls(h));
  }

  lemma SetIffOwned(h: seq<Happening>, r: string, x: string)
    requires Forward(h)
    ensures EverSet(File(h), r, x) <==> Owns(Calls(h), r, x)
  {
    hide EverSet, Owns, SetOnce, Timed, LogOf, Missed, Lost, SetDumped;
    if Owns(Calls(h), r, x) { Traced(h, r, x, 0.0); } else { NotTraced(h, r, x); }
  }

  // The variables that resources are traced with
  const SpeedUsed := "speed_used"
  const BandwidthUsed := "bandwidth_used"

  /** Calls as the platform makes them. */
  ghost predicate OfPlatform(calls: seq<Call>) { forall c :: c in calls ==> c.variable == SpeedUsed || c.variable == BandwidthUsed }

  lemma SuffixApart(r: string, q: string)
    ensures Key(r, SpeedUsed) != Key(q, BandwidthUsed)
  {
    var a, b := Key(r, SpeedUsed), Key(q, BandwidthUsed);
    assert |SpeedUsed| == 10 && |BandwidthUsed| == 14;
    assert a[|a| - 10] == SpeedUsed[0] == 's' && b[|b| - 10] == BandwidthUsed[4] == 'w';
  }

  lemma SameSuffix(r: string, q: string, x: string)
    requires Key(r, x) == Key(q, x)
    ensures r == q
  {
    assert |r| == |q|;
    assert r == Key(r, x)[..|r|] && q == Key(q, x)[..|q|];
  }

  /** The variables of the platform never share a key, so its trace sets all of them. */
  lemma PlatformTraced(h: seq<Happening>)
    requires Forward(h) && OfPlatform(Calls(h))
    ensures KeysDiffer(Calls(h)) && forall c :: c in Calls(h) ==> EverSet(File(h), c.resource, c.variable)
  {
    var calls := Calls(h);
    hide Key, EverSet, File, Calls;
    forall c, d | c in calls && d in calls && Key(c.resource, c.variable) == Key(d.resource, d.variable)
      ensures c.resource == d.resource && c.variable == d.variable
    {
      SuffixApart(c.resource, d.resource);
      SuffixApart(d.resource, c.resource);
      SameSuffix(c.resource, d.resource, if c.variable == d.variable then c.variable else SpeedUsed);
    }
    AllTracedIff(h);
  }

  /** Once every interval is over, nothing is in use. */
  lemma {:induction false} NothingLeft(calls: seq<Call>, r: string, x: string, t: real)
    requires forall c :: c in calls && c.resource == r && c.variable == x ==> c.now + c.delta <= t
    ensures InUse(calls, r, x, t) == 0.0
  {
    if calls != [] {
      var n := |calls| - 1;
      assert calls[n] in calls;
      forall c | c in calls[..n] ensures c in calls { }
      NothingLeft(calls[..n], r, x, t);
    }
  }

  /** Two variables could share a key, if other names were in use. */
  lemma KeysClash()
    ensures Key("host1", "1power") == Key("host11", "power")
    ensures !KeysDiffer([Call(0.0, 1.0, "host1", "1power", 1.0), Call(0.0, 1.0, "host11", "power", 1.0)])
  {
    var calls := [Call(0.0, 1.0, "host1", "1power", 1.0), Call(0.0, 1.0, "host11", "power", 1.0)];
    assert Key("host1", "1power") == "host11power" == Key("host11", "power");
    assert calls[0] in calls && calls[1] in calls;
    assert |"host1"| != |"host11"|;
  }

  // ----- The tracer -----

  class VariableTracer {
    const trace: Trace<Change>
    var platformVariables: set<string>
    var created: nat
    ghost var history: seq<Happening>

    ghost predicate Valid() reads this, trace {
      && platformVariables == KnownKeys(Calls(history)) && created == |trace.printed| + |trace.buffer|
      && trace.Contents() == LogOf(history)
    }

    constructor ()
      ensures Valid() && history == [] && fresh(trace)
    {
      trace := new Trace();
      platformVariables, created, history := {}, 0, [];
    }

    method NewEvent(time: real, resource: string, variable: string, kind: Kind, value: real)
      modifies this`created, trace`buffer
      ensures created == old(created) + 1
      ensures trace.Contents() == Apply(old(trace.Contents()), Create(Event(old(created), time, Change(resource, variable, kind, value))))
    {
      trace.InsertIntoBuffer(Event(created, time, Change(resource, variable, kind, value)));
      created := created + 1;
    }

    /** Any time, before or after what is already printed. */
    method InstrEvent(now: real, delta: real, resource: string, variable: string, value: real)
      requires Valid()
      modifies this`created, this`platformVariables, this`history, trace`buffer
      ensures Valid() && history == old(history) + [Use(Call(now, delta, resource, variable, value))]
    {
      hide Insert, InsertAll, LogOf, Calls;
      ghost var c := Call(now, delta, resource, variable, value);
      ghost var es, q := Emit(platformVariables, created, c), trace.buffer;
      if Key(resource, variable) !in platformVariables {
        platformVariables := platformVariables + {Key(resource, variable)};
        NewEvent(now, resource, variable, Set, 0.0);
        InsertThree(q, es[0], es[1], es[2]);
      } else {
        InsertTwo(q, es[0], es[1]);
      }
      NewEvent(now, resource, variable, Add, value);
      NewEvent(now + delta, resource, variable, Sub, value);
      history := history + [Use(c)];
      HistoryNext(old(history), c);
      AllInsertedLength(q, es);
    }

    /** A dump, forced or not. */
    method Dump(until: real, force: bool)
      requires Valid()
      modifies this`history, trace
      ensures Valid() && history == old(history) + [Flush(until, force)]
    {
      hide LogOf, Calls, Apply, KnownKeys;
      trace.lastTimestampToDump := until;
      trace.DumpBuffer(true, force, false);
      FlushNext(history, until, force);
      history := history + [Flush(until, force)];
    }
  }

  lemma FlushNext(h: seq<Happening>, until: real, force: bool)
    ensures var h', l := h + [Flush(until, force)], LogOf(h);
            && LogOf(h') == Apply(l, Dump(until, force)) && Calls(h') == Calls(h)
            && |LogOf(h').printed| + |LogOf(h').buffered| == |l.printed| + |l.buffered|
  {
    var h' := h + [Flush(until, force)];
    assert h'[..|h'| - 1] == h;
    DumpKeeps(LogOf(h), until, force);
    hide Apply;
    assert |LogOf(h').printed + LogOf(h').buffered| == |LogOf(h).printed + LogOf(h).buffered|;
  }

  lemma HistoryNext(h: seq<Happening>, c: Call)
    ensures LogOf(h + [Use(c)]) == Receive(LogOf(h), KnownKeys(Calls(h)), c)
    ensures KnownKeys(Calls(h + [Use(c)])) == KnownKeys(Calls(h)) + {Key(c.resource, c.variable)}
  {
    var h' := h + [Use(c)];
    assert h'[..|h'| - 1] == h;
    LogNext(h', c);
    CallsNext(h', c);
    hide LogOf, Receive, Calls;
    KnownKeysNext(Calls(h), c);
  }

  lemma KnownKeysNext(calls: seq<Call>, c: Call)
    ensures KnownKeys(calls + [c]) == KnownKeys(calls) + {Key(c.resource, c.variable)}
  {
    assert forall d :: d in calls + [c] <==> d in calls || d == c;
  }

  lemma {:induction false} AllInsertedLength(q: seq<Event<Change>>, es: seq<Event<Change>>)
    ensures |InsertAll(q, es)| == |q| + |es|
  {
    if es != [] {
      AllInsertedLength(q, es[..|es| - 1]);
      InsertKeeps(InsertAll(q, es[..|es| - 1]), es[|es| - 1]);
      assert |multiset(InsertAll(q, es))| == |InsertAll(q, es)|;
    }
  }
}
