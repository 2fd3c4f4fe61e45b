/** Run-once tasks: callables owned by slots, kept in the slot itself or on the heap. */
module Tasks {
  import opened Common

  type Slot = nat
  type Code = nat      // a callable; each one created gets a new number

  /** What a program does with its tasks; the body of a call is what the callable does with them in turn. */
  datatype Op =
    | Create(s: Slot)
    | CreateEmpty(s: Slot)
    | MoveCreate(s: Slot, from: Slot)
    | MoveAssign(s: Slot, from: Slot)
    | Call(s: Slot, body: seq<Op>)
    | Drop(s: Slot)

  // ----- Tasks as optional callables -----

  datatype View = View(slots: map<Slot, Option<Code>>, running: seq<Code>, invoked: seq<Code>, released: seq<Code>, failed: nat, next: Code)

  const Empty: View := View(map[], [], [], [], 0, 0)

  /** Operations on slots that do not exist, or exist already, and moves from a slot to itself are not programs. */
  predicate Legal(slots: set<Slot>, op: Op) {
    match op
    case Create(s) => s !in slots
    case CreateEmpty(s) => s !in slots
    case MoveCreate(s, from) => s !in slots && from in slots
    case MoveAssign(s, from) => s in slots && from in slots && s != from
    case Call(s, _) => s in slots
    case Drop(s) => s in slots
  }

  function Releasing(o: Option<Code>): seq<Code> { if o.Some? then [o.value] else [] }

  function Do(v: View, op: Op): View
    decreases op
  {
    if !Legal(v.slots.Keys, op) then v
    else match op
      case Create(s) => v.(slots := v.slots[s := Some(v.next)], next := v.next + 1)
      case CreateEmpty(s) => v.(slots := v.slots[s := None])
      case MoveCreate(s, from) => v.(slots := v.slots[s := v.slots[from]][from := None])
      case MoveAssign(s, from) =>
        v.(slots := v.slots[s := v.slots[from]][from := None], released := v.released + Releasing(v.slots[s]))
      case Call(s, body) =>
        if v.slots[s].None? then v.(failed := v.failed + 1) else Returned(DoAll(Invoked(v, s), body))
      case Drop(s) => v.(slots := v.slots - {s}, released := v.released + Releasing(v.slots[s]))
  }

  function Invoked(v: View, s: Slot): View
    requires s in v.slots && v.slots[s].Some?
  {
    var c := v.slots[s].value;
    v.(slots := v.slots[s := None], running := v.running + [c], invoked := v.invoked + [c])
  }

  /** After the innermost call: its callable is released. */
  function Returned(v: View): View {
    if |v.running| == 0 then v
    else v.(running := v.running[..|v.running| - 1], released := v.released + [v.running[|v.running| - 1]])
  }

  function DoAll(v: View, ops: seq<Op>): View
    decreases ops
  {
    if ops == [] then v else Do(DoAll(v, ops[..|ops| - 1]), ops[|ops| - 1])
  }

  // ----- What an operation does to each slot -----

  /** The slots other than those of `but` are the same, with the same callables. */
  ghost predicate Elsewhere(slots: map<Slot, Option<Code>>, slots': map<Slot, Option<Code>>, but: set<Slot>) {
    forall t :: t !in but ==> (t in slots' <==> t in slots) && (t in slots ==> slots'[t] == slots[t])
  }

  /** Nothing is created, invoked or released. */
  ghost predicate Quiet(v: View, v': View) {
    v'.next == v.next && v'.invoked == v.invoked && v'.released == v.released && v'.failed == v.failed && v'.running == v.running
  }

  /** A new callable is in its new slot. */
  lemma CreateMeans(v: View, s: Slot)
    requires s !in v.slots
    ensures var v' := Do(v, Create(s));
            && s in v'.slots && v'.slots[s] == Some(v.next) && Elsewhere(v.slots, v'.slots, {s})
            && v'.next == v.next + 1 && Quiet(v, v'.(next := v.next))
    ensures var v' := Do(v, CreateEmpty(s));
            s in v'.slots && v'.slots[s] == None && Elsewhere(v.slots, v'.slots, {s}) && Quiet(v, v')
  {
  }

  /** A move takes the callable from one slot to the other, and releases what was there. */
  lemma MoveMeans(v: View, s: Slot, from: Slot)
    requires from in v.slots && s != from
    ensures var v' := Do(v, if s in v.slots then MoveAssign(s, from) else MoveCreate(s, from));
            && s in v'.slots && from in v'.slots && v'.slots[s] == v.slots[from] && v'.slots[from] == None
            && Elsewhere(v.slots, v'.slots, {s, from})
            && Quiet(v.(released := v'.released), v')
            && v'.released == v.released + if s in v.slots && v.slots[s].Some? then [v.slots[s].value] else []
  {
  }

  lemma DropMeans(v: View, s: Slot)
    requires s in v.slots
    ensures var v' := Do(v, Drop(s));
            && s !in v'.slots && Elsewhere(v.slots, v'.slots, {s}) && Quiet(v.(released := v'.released), v')
            && v'.released == v.released + if v.slots[s].Some? then [v.slots[s].value] else []
  {
  }

  /** A call invokes the callable of its slot first, which is then empty, and releases it last; a call of an empty task
      only fails. */
  lemma {:induction false} CallMeans(v: View, s: Slot, body: seq<Op>)
    requires s in v.slots
    ensures var v' := Do(v, Call(s, body));
            && (v.slots[s] == None ==> v' == v.(failed := v.failed + 1))
            && (v.slots[s].Some? ==>
                  var c := v.slots[s].value;
                  var inner := DoAll(v.(slots := v.slots[s := None], running := v.running + [c], invoked := v.invoked + [c]), body);
                  && v.invoked + [c] <= inner.invoked == v'.invoked && v'.released == inner.released + [c]
                  && v'.slots == inner.slots && v'.next == inner.next && v'.failed == inner.failed && v'.running == v.running)
  {
    if v.slots[s].Some? {
      var c := v.slots[s].value;
      var w := v.(slots := v.slots[s := None], running := v.running + [c], invoked := v.invoked + [c]);
      DoAllKeeps(w, body);
    }
  }

  lemma {:induction false} DoKeeps(v: View, op: Op)
    ensures v.invoked <= Do(v, op).invoked && v.released <= Do(v, op).released && Do(v, op).running == v.running
    decreases op
  {
    if op.Call? && op.s in v.slots && v.slots[op.s].Some? {
      DoAllKeeps(Invoked(v, op.s), op.body);
    }
  }

  lemma {:induction false} DoAllKeeps(v: View, ops: seq<Op>)
    ensures v.invoked <= DoAll(v, ops).invoked && v.released <= DoAll(v, ops).released && DoAll(v, ops).running == v.running
    decreases ops
  {
    if ops != [] {
      DoAllKeeps(v, ops[..|ops| - 1]);
      DoKeeps(DoAll(v, ops[..|ops| - 1]), ops[|ops| - 1]);
    }
  }

  /** What is no program does nothing: a slot created twice, or a slot used before it is created or after it is dropped. */
  lemma NoProgram(v: View, s: Slot, from: Slot, body: seq<Op>)
    ensures s in v.slots ==> Do(v, Create(s)) == Do(v, CreateEmpty(s)) == Do(v, MoveCreate(s, from)) == v
    ensures s !in v.slots ==> Do(v, Drop(s)) == Do(v, Call(s, body)) == Do(v, MoveAssign(s, from)) == v
    ensures from !in v.slots ==> Do(v, MoveCreate(s, from)) == Do(v, MoveAssign(s, from)) == v
    ensures Do(v, MoveAssign(s, s)) == v
  {
  }

  /** A callable moved away and back is where it was. */
  lemma ThereAndBack(v: View, s: Slot, from: Slot)
    requires from in v.slots && s !in v.slots
    ensures DoAll(v, [MoveCreate(s, from), MoveAssign(from, s), Drop(s)]) == v
  {
    var a, b, c := MoveCreate(s, from), MoveAssign(from, s), Drop(s);
    var w := Do(Do(v, a), b);
    assert Do(w, c).slots == v.slots;
    assert [a, b, c][..2] == [a, b] && [a, b][..1] == [a] && [a][..0] == [];
    hide Do;
    assert DoAll(v, []) == v && DoAll(v, [a]) == Do(v, a) && DoAll(v, [a, b]) == w;
  }

  // ----- Every callable has one owner until it is released -----

  ghost predicate Owned(slots: map<Slot, Option<Code>>, c: Code) { exists s :: s in slots && slots[s] == Some(c) }

  /** No callable in two slots. */
  ghost predicate OneOwner(slots: map<Slot, Option<Code>>) {
    forall s, t :: s in slots && t in slots && s != t && slots[s].Some? ==> slots[s] != slots[t]
  }

  /** A created callable is in a slot, running, or released; running and released ones are listed once. */
  ghost predicate Accounted(v: View) {
    && OneOwner(v.slots) && NoRepeats(v.running) && NoRepeats(v.released)
    && (forall c: Code :: c in v.running ==> c < v.next && c !in v.released && !Owned(v.slots, c))
    && (forall c: Code :: c in v.released ==> c < v.next && !Owned(v.slots, c))
    && (forall c: Code :: Owned(v.slots, c) ==> c < v.next)
    && (forall c: Code :: c < v.next ==> Owned(v.slots, c) || c in v.running || c in v.released)
  }

  /** Callables are invoked once, when they leave their slot. */
  ghost predicate InvokedOnce(v: View) {
    && NoRepeats(v.invoked)
    && (forall c: Code :: c in v.running ==> c in v.invoked)
    && (forall c: Code :: c in v.invoked ==> c in v.running || c in v.released)
  }

  lemma PushNew(q: seq<Code>, c: Code)
    requires NoRepeats(q) && c !in q
    ensures NoRepeats(q + [c]) && forall x :: x in q + [c] <==> x in q || x == c
  {
  }

  lemma CreateAccounted(v: View, s: Slot)
    requires Accounted(v) && s !in v.slots
    ensures Accounted(Do(v, Create(s)))
  {
    var v' := Do(v, Create(s));
    forall c: Code ensures Owned(v'.slots, c) <==> Owned(v.slots, c) || c == v.next {
      if c == v.next { assert v'.slots[s] == Some(c); }
      if t :| t in v.slots && v.slots[t] == Some(c) { assert v'.slots[t] == Some(c); }
    }
    forall t | t in v.slots && v.slots[t].Some? ensures v.slots[t].value < v.next { assert Owned(v.slots, v.slots[t].value); }
  }

  /** Moving a callable between slots, after what was there has gone. */
  lemma Moved(slots: map<Slot, Option<Code>>, s: Slot, from: Slot)
    requires OneOwner(slots) && from in slots && s != from
    ensures var slots' := slots[s := slots[from]][from := None];
            OneOwner(slots') && forall c: Code :: Owned(slots', c) <==> Owned(slots, c) && !(s in slots && slots[s] == Some(c))
  {
    var slots' := slots[s := slots[from]][from := None];
    forall c: Code ensures Owned(slots', c) <==> Owned(slots, c) && !(s in slots && slots[s] == Some(c)) {
      if t :| t in slots && slots[t] == Some(c) { assert slots'[if t == from then s else t] == Some(c) || t == s; }
      if t :| t in slots' && slots'[t] == Some(c) { assert slots[if t == s then from else t] == Some(c); }
    }
  }

  lemma Emptied(slots: map<Slot, Option<Code>>, s: Slot, slots': map<Slot, Option<Code>>)
    requires OneOwner(slots) && s in slots && (slots' == slots[s := None] || slots' == slots - {s})
    ensures OneOwner(slots') && forall c: Code :: Owned(slots', c) <==> Owned(slots, c) && slots[s] != Some(c)
  {
    forall c: Code ensures Owned(slots', c) <==> Owned(slots, c) && slots[s] != Some(c) {
      if t :| t in slots && slots[t] == Some(c) { assert t == s || (t in slots' && slots'[t] == Some(c)); }
    }
  }

  lemma ReleasedOne(v: View, s: Slot, slots': map<Slot, Option<Code>>)
    requires Accounted(v) && s in v.slots && OneOwner(slots')
    requires forall c: Code :: Owned(slots', c) <==> Owned(v.slots, c) && v.slots[s] != Some(c)
    ensures Accounted(v.(slots := slots', released := v.released + Releasing(v.slots[s])))
    ensures forall c: Code :: c in v.released ==> c in v.released + Releasing(v.slots[s])
  {
    var o := v.slots[s];
    if o.Some? {
      assert Owned(v.slots, o.value);
      PushNew(v.released, o.value);
    }
    hide OneOwner, Owned, NoRepeats;
  }

  lemma InvokedAccounted(v: View, s: Slot)
    requires Accounted(v) && InvokedOnce(v) && s in v.slots && v.slots[s].Some?
    ensures Accounted(Invoked(v, s)) && InvokedOnce(Invoked(v, s))
  {
    var c := v.slots[s].value;
    Emptied(v.slots, s, v.slots[s := None]);
    assert Owned(v.slots, c);
    PushNew(v.running, c);
    PushNew(v.invoked, c);
    hide OneOwner, Owned, NoRepeats;
  }

  lemma ReturnedAccounted(v: View)
    requires Accounted(v) && InvokedOnce(v) && |v.running| > 0
    ensures Accounted(Returned(v)) && InvokedOnce(Returned(v))
  {
    var n := |v.running| - 1;
    var c := v.running[n];
    assert c in v.running;
    PushNew(v.released, c);
    forall x ensures x in v.running <==> x in v.running[..n] || x == c { }
    assert NoRepeats(v.running[..n]) && c !in v.running[..n];
    hide OneOwner, Owned, NoRepeats;
  }

  lemma {:induction false} DoAccounted(v: View, op: Op)
    requires Accounted(v) && InvokedOnce(v)
    ensures Accounted(Do(v, op)) && InvokedOnce(Do(v, op)) && Do(v, op).running == v.running
    decreases op
  {
    if Legal(v.slots.Keys, op) {
      match op {
        case Create(s) => CreateAccounted(v, s);
        case CreateEmpty(s) => AddedEmpty(v, s);
        case MoveCreate(s, from) =>
          Moved(v.slots, s, from);
          hide OneOwner, Owned, NoRepeats;
        case MoveAssign(s, from) =>
          Moved(v.slots, s, from);
          ReleasedOne(v, s, v.slots[s := v.slots[from]][from := None]);
          hide Accounted, NoRepeats;
        case Call(s, body) =>
          if v.slots[s].Some? {
            InvokedAccounted(v, s);
            DoAllAccounted(Invoked(v, s), body);
            ReturnedAccounted(DoAll(Invoked(v, s), body));
            hide Accounted, InvokedOnce;
          }
        case Drop(s) =>
          Emptied(v.slots, s, v.slots - {s});
          ReleasedOne(v, s, v.slots - {s});
          hide Accounted, NoRepeats;
      }
    }
  }

  lemma AddedEmpty(v: View, s: Slot)
    requires Accounted(v) && s !in v.slots
    ensures Accounted(v.(slots := v.slots[s := None]))
  {
    var slots' := v.slots[s := None];
    forall c: Code ensures Owned(slots', c) <==> Owned(v.slots, c) {
      if t :| t in v.slots && v.slots[t] == Some(c) { assert slots'[t] == Some(c); }
    }
    assert OneOwner(slots');
    hide OneOwner, Owned, NoRepeats;
  }

  lemma {:induction false} DoAllAccounted(v: View, ops: seq<Op>)
    requires Accounted(v) && InvokedOnce(v)
    ensures Accounted(DoAll(v, ops)) && InvokedOnce(DoAll(v, ops)) && DoAll(v, ops).running == v.running
    decreases ops
  {
    if ops != [] {
      hide Accounted, InvokedOnce;
      DoAllAccounted(v, ops[..|ops| - 1]);
      DoAccounted(DoAll(v, ops[..|ops| - 1]), ops[|ops| - 1]);
    }
  }

  /** After any program: a callable is in exactly one slot and was never invoked, or it is in none, was released once,
      and invoked at most once. When no slot is left, every callable has been released. */
  lemma RunOnce(ops: seq<Op>, c: Code)
    requires c < DoAll(Empty, ops).next
    ensures var v := DoAll(Empty, ops);
            && v.running == [] && NoRepeats(v.invoked) && NoRepeats(v.released) && OneOwner(v.slots)
            && (Owned(v.slots, c) <==> c !in v.released)
            && (c in v.invoked ==> c in v.released)
            && (v.slots == map[] ==> c in v.released)
  {
    assert Accounted(Empty) && InvokedOnce(Empty);
    DoAllAccounted(Empty, ops);
  }

  // ----- Storage -----

  /** How a callable is stored, by its type. */
  datatype Kind = Kind(small: bool, trivial: bool)

  /** The bytes of a slot: a callable, the address of one, or nothing of use. */
  datatype Buffer = Raw | Object(c: Code) | Pointer(addr: nat)

  datatype Cell = Cell(buffer: Buffer, vtable: Option<Kind>)

  /** The callable of a cell. */
  function Held(cell: Cell, heap: map<nat, Code>): Option<Code> {
    if cell.vtable.None? then None
    else match cell.buffer
      case Raw => None
      case Object(c) => Some(c)
      case Pointer(a) => if a in heap then Some(heap[a]) else None
  }

  /** The buffer of a cell in use is what its table of functions expects. */
  ghost predicate Typed(cell: Cell, heap: map<nat, Code>, kinds: Code -> Kind) {
    cell.vtable.Some? ==>
      if cell.vtable.value.small then cell.buffer.Object? && kinds(cell.buffer.c) == cell.vtable.value
      else cell.buffer.Pointer? && cell.buffer.addr in heap && kinds(heap[cell.buffer.addr]) == cell.vtable.value
  }

  ghost predicate PointsTo(cell: Cell, a: nat) { cell.vtable.Some? && !cell.vtable.value.small && cell.buffer == Pointer(a) }

  ghost predicate AllTyped(cells: map<Slot, Cell>, heap: map<nat, Code>, kinds: Code -> Kind) {
    forall s :: s in cells ==> Typed(cells[s], heap, kinds)
  }

  /** Every heap cell belongs to exactly one slot or running call. */
  ghost predicate HeapOwned(cells: map<Slot, Cell>, heap: map<nat, Code>, calls: seq<nat>) {
    && (forall s, t, a :: s in cells && t in cells && PointsTo(cells[s], a) && PointsTo(cells[t], a) ==> s == t)
    && (forall a :: a in heap && a !in calls ==> exists s :: s in cells && PointsTo(cells[s], a))
    && (forall s, a :: s in cells && PointsTo(cells[s], a) ==> a !in calls)
    && (forall i, j :: 0 <= i < j < |calls| ==> calls[i] != calls[j])
  }

  ghost predicate Stored(cells: map<Slot, Cell>, heap: map<nat, Code>, calls: seq<nat>, nextAddr: nat, kinds: Code -> Kind) {
    && AllTyped(cells, heap, kinds) && HeapOwned(cells, heap, calls)
    && (forall a :: a in heap ==> a < nextAddr)
    && (forall a :: a in calls ==> a in heap && !kinds(heap[a]).small)
  }

  function Contents(cells: map<Slot, Cell>, heap: map<nat, Code>): map<Slot, Option<Code>> {
    map s | s in cells :: Held(cells[s], heap)
  }

  /** The destructors that do something. */
  function Destructors(released: seq<Code>, kinds: Code -> Kind): seq<Code> {
    if released == [] then []
    else Destructors(released[..|released| - 1], kinds) +
         if kinds(released[|released| - 1]).trivial then [] else [released[|released| - 1]]
  }

  /** The heap without the callable that a cell points to. */
  function Freed(cell: Cell, heap: map<nat, Code>): map<nat, Code> {
    if cell.vtable.Some? && !cell.vtable.value.small && cell.buffer.Pointer? then heap - {cell.buffer.addr} else heap
  }

  lemma DestructorsPush(released: seq<Code>, c: Code, kinds: Code -> Kind)
    ensures Destructors(released + [c], kinds) == Destructors(released, kinds) + if kinds(c).trivial then [] else [c]
  {
    assert (released + [c])[..|released|] == released;
  }

  lemma TypedHeld(cell: Cell, heap: map<nat, Code>, kinds: Code -> Kind)
    requires Typed(cell, heap, kinds)
    ensures cell.vtable.Some? <==> Held(cell, heap).Some?
    ensures cell.vtable.Some? ==> kinds(Held(cell, heap).value) == cell.vtable.value
  {
  }

  lemma StoredSmall(cells: map<Slot, Cell>, heap: map<nat, Code>, calls: seq<nat>, nextAddr: nat, kinds: Code -> Kind, s: Slot, c: Code)
    requires Stored(cells, heap, calls, nextAddr, kinds) && s !in cells && kinds(c).small
    ensures var cells' := cells[s := Cell(Object(c), Some(kinds(c)))];
            Stored(cells', heap, calls, nextAddr, kinds) && Contents(cells', heap) == Contents(cells, heap)[s := Some(c)]
  {
    var cells' := cells[s := Cell(Object(c), Some(kinds(c)))];
    forall a | a in heap && a !in calls ensures exists t :: t in cells' && PointsTo(cells'[t], a) {
      var t :| t in cells && PointsTo(cells[t], a);
      assert PointsTo(cells'[t], a);
    }
  }

  lemma StoredLarge(cells: map<Slot, Cell>, heap: map<nat, Code>, calls: seq<nat>, nextAddr: nat, kinds: Code -> Kind, s: Slot, c: Code)
    requires Stored(cells, heap, calls, nextAddr, kinds) && s !in cells && !kinds(c).small
    ensures var cells', heap' := cells[s := Cell(Pointer(nextAddr), Some(kinds(c)))], heap[nextAddr := c];
            Stored(cells', heap', calls, nextAddr + 1, kinds) && Contents(cells', heap') == Contents(cells, heap)[s := Some(c)]
  {
    var cells', heap' := cells[s := Cell(Pointer(nextAddr), Some(kinds(c)))], heap[nextAddr := c];
    LargeTyped(cells, heap, kinds, nextAddr, s, c);
    LargeOwned(cells, heap, calls, kinds, nextAddr, s, c);
    hide AllTyped, HeapOwned, Typed, PointsTo;
  }

  lemma LargeTyped(cells: map<Slot, Cell>, heap: map<nat, Code>, kinds: Code -> Kind, a: nat, s: Slot, c: Code)
    requires AllTyped(cells, heap, kinds) && s !in cells && a !in heap && !kinds(c).small
    ensures var cells', heap' := cells[s := Cell(Pointer(a), Some(kinds(c)))], heap[a := c];
            AllTyped(cells', heap', kinds) && forall t :: t in cells ==> Held(cells'[t], heap') == Held(cells[t], heap)
  {
    forall t | t in cells ensures Held(cells[t], heap[a := c]) == Held(cells[t], heap) && Typed(cells[t], heap[a := c], kinds) {
      assert Typed(cells[t], heap, kinds);
    }
  }

  lemma LargeOwned(cells: map<Slot, Cell>, heap: map<nat, Code>, calls: seq<nat>, kinds: Code -> Kind, a: nat, s: Slot, c: Code)
    requires AllTyped(cells, heap, kinds) && HeapOwned(cells, heap, calls) && s !in cells && a !in heap && a !in calls && !kinds(c).small
    ensures HeapOwned(cells[s := Cell(Pointer(a), Some(kinds(c)))], heap[a := c], calls)
  {
    var cells' := cells[s := Cell(Pointer(a), Some(kinds(c)))];
    assert PointsTo(cells'[s], a);
    forall b | b in heap && b !in calls ensures exists t :: t in cells' && PointsTo(cells'[t], b) {
      var t :| t in cells && PointsTo(cells[t], b);
      assert PointsTo(cells'[t], b);
    }
    forall t, b | t in cells && PointsTo(cells[t], b) ensures b in heap {
      assert Typed(cells[t], heap, kinds);
    }
    hide Typed;
  }

  /** The callable of `s` is freed; the others stay. */
  lemma OthersKept(cells: map<Slot, Cell>, heap: map<nat, Code>, calls: seq<nat>, nextAddr: nat, kinds: Code -> Kind, s: Slot, t: Slot)
    requires Stored(cells, heap, calls, nextAddr, kinds) && s in cells && t in cells && s != t
    ensures Typed(cells[t], Freed(cells[s], heap), kinds) && Held(cells[t], Freed(cells[s], heap)) == Held(cells[t], heap)
  {
    var c, d := cells[s], cells[t];
    if c.vtable.Some? && !c.vtable.value.small && d.vtable.Some? && !d.vtable.value.small {
      assert PointsTo(c, c.buffer.addr) && PointsTo(d, d.buffer.addr);
    }
  }

  /** Dropping a slot. */
  lemma StoredDrop(cells: map<Slot, Cell>, heap: map<nat, Code>, calls: seq<nat>, nextAddr: nat, kinds: Code -> Kind, s: Slot)
    requires Stored(cells, heap, calls, nextAddr, kinds) && s in cells
    ensures Stored(cells - {s}, Freed(cells[s], heap), calls, nextAddr, kinds)
    ensures Contents(cells - {s}, Freed(cells[s], heap)) == Contents(cells, heap) - {s}
  {
    var heap' := Freed(cells[s], heap);
    forall t | t in cells - {s} ensures Typed(cells[t], heap', kinds) && Held(cells[t], heap') == Held(cells[t], heap) {
      OthersKept(cells, heap, calls, nextAddr, kinds, s, t);
    }
    hide Typed, Held;
    FreedHeap(cells, heap, calls, nextAddr, kinds, s);
  }

  lemma FreedHeap(cells: map<Slot, Cell>, heap: map<nat, Code>, calls: seq<nat>, nextAddr: nat, kinds: Code -> Kind, s: Slot)
    requires Stored(cells, heap, calls, nextAddr, kinds) && s in cells
    ensures var heap' := Freed(cells[s], heap);
            && (forall a :: a in heap' ==> a in heap && heap'[a] == heap[a])
            && (forall a :: a in heap' && a !in calls ==> exists t :: t in cells - {s} && PointsTo(cells[t], a))
            && (forall a :: a in calls ==> a in heap')
  {
    var heap' := Freed(cells[s], heap);
    forall a | a in heap' && a !in calls ensures exists t :: t in cells - {s} && PointsTo(cells[t], a) {
      var t :| t in cells && PointsTo(cells[t], a);
      assert t in cells - {s};
    }
    if cells[s].vtable.Some? && !cells[s].vtable.value.small && cells[s].buffer.Pointer? { assert PointsTo(cells[s], cells[s].buffer.addr); }
  }

  /** Moving a callable to a slot that holds none. */
  lemma StoredMove(cells: map<Slot, Cell>, heap: map<nat, Code>, calls: seq<nat>, nextAddr: nat, kinds: Code -> Kind, s: Slot, from: Slot,
                   rest: Buffer)
    requires Stored(cells, heap, calls, nextAddr, kinds) && s !in cells && from in cells
    ensures var cells' := cells[s := cells[from]][from := Cell(rest, None)];
            && Stored(cells', heap, calls, nextAddr, kinds)
            && Contents(cells', heap) == Contents(cells, heap)[s := Held(cells[from], heap)][from := None]
  {
    var cells' := cells[s := cells[from]][from := Cell(rest, None)];
    assert AllTyped(cells', heap, kinds);
    assert Contents(cells', heap) == Contents(cells, heap)[s := Held(cells[from], heap)][from := None];
    hide AllTyped, Held;
    OwnedMove(cells, heap, calls, s, from, rest);
    hide HeapOwned;
  }

  /** Moving a callable to another slot, whose own one is freed. */
  lemma StoredOver(cells: map<Slot, Cell>, heap: map<nat, Code>, calls: seq<nat>, nextAddr: nat, kinds: Code -> Kind, s: Slot, from: Slot,
                   rest: Buffer)
    requires Stored(cells, heap, calls, nextAddr, kinds) && s in cells && from in cells && s != from
    ensures var cells', heap' := cells[s := cells[from]][from := Cell(rest, None)], Freed(cells[s], heap);
            && Stored(cells', heap', calls, nextAddr, kinds)
            && Contents(cells', heap') == Contents(cells, heap)[s := Held(cells[from], heap)][from := None]
            && forall a :: a in calls ==> a in heap' && a in heap && heap'[a] == heap[a]
  {
    var heap' := Freed(cells[s], heap);
    StoredDrop(cells, heap, calls, nextAddr, kinds, s);
    FreedHeap(cells, heap, calls, nextAddr, kinds, s);
    OthersKept(cells, heap, calls, nextAddr, kinds, s, from);
    StoredMove(cells - {s}, heap', calls, nextAddr, kinds, s, from, rest);
    assert cells[s := cells[from]][from := Cell(rest, None)] == (cells - {s})[s := cells[from]][from := Cell(rest, None)];
    MovedOver(Contents(cells, heap), s, from, Held(cells[from], heap));
    hide Stored, Contents, Held, Freed;
  }

  lemma OwnedMove(cells: map<Slot, Cell>, heap: map<nat, Code>, calls: seq<nat>, s: Slot, from: Slot, rest: Buffer)
    requires HeapOwned(cells, heap, calls) && s !in cells && from in cells
    ensures HeapOwned(cells[s := cells[from]][from := Cell(rest, None)], heap, calls)
  {
    var cells' := cells[s := cells[from]][from := Cell(rest, None)];
    forall t, a | t in cells' ensures PointsTo(cells'[t], a) <==> t != from && PointsTo(cells[if t == s then from else t], a) { }
    hide PointsTo;
    forall a | a in heap && a !in calls ensures exists t :: t in cells' && PointsTo(cells'[t], a) {
      var t :| t in cells && PointsTo(cells[t], a);
      assert PointsTo(cells'[if t == from then s else t], a);
    }
  }

  /** A call takes the callable out of its slot; one on the heap now belongs to the call. */
  lemma StoredInvoke(cells: map<Slot, Cell>, heap: map<nat, Code>, calls: seq<nat>, nextAddr: nat, kinds: Code -> Kind, s: Slot, rest: Buffer)
    requires Stored(cells, heap, calls, nextAddr, kinds) && s in cells && cells[s].vtable.Some?
    ensures var cells' := cells[s := Cell(rest, None)];
            var calls' := if cells[s].vtable.value.small then calls else calls + [cells[s].buffer.addr];
            && Stored(cells', heap, calls', nextAddr, kinds) && Contents(cells', heap) == Contents(cells, heap)[s := None]
  {
    var cells' := cells[s := Cell(rest, None)];
    assert Contents(cells', heap) == Contents(cells, heap)[s := None];
    assert AllTyped(cells', heap, kinds);
    if cells[s].vtable.value.small {
      assert HeapOwned(cells', heap, calls) by { SmallInvoked(cells, heap, calls, s, rest); }
    } else {
      assert Typed(cells[s], heap, kinds);
      assert HeapOwned(cells', heap, calls + [cells[s].buffer.addr]) by { LargeInvoked(cells, heap, calls, s, rest, cells[s].buffer.addr); }
    }
    hide AllTyped, HeapOwned, Held;
  }

  lemma SmallInvoked(cells: map<Slot, Cell>, heap: map<nat, Code>, calls: seq<nat>, s: Slot, rest: Buffer)
    requires HeapOwned(cells, heap, calls) && s in cells && cells[s].vtable.Some? && cells[s].vtable.value.small
    ensures HeapOwned(cells[s := Cell(rest, None)], heap, calls)
  {
    var cells' := cells[s := Cell(rest, None)];
    forall t, a | t in cells ensures PointsTo(cells'[t], a) <==> PointsTo(cells[t], a) { }
    hide PointsTo;
    forall a | a in heap && a !in calls ensures exists t :: t in cells' && PointsTo(cells'[t], a) {
      var t :| t in cells && PointsTo(cells[t], a);
      assert PointsTo(cells'[t], a);
    }
  }

  lemma LargeInvoked(cells: map<Slot, Cell>, heap: map<nat, Code>, calls: seq<nat>, s: Slot, rest: Buffer, b: nat)
    requires HeapOwned(cells, heap, calls) && s in cells && PointsTo(cells[s], b)
    ensures HeapOwned(cells[s := Cell(rest, None)], heap, calls + [b])
  {
    var cells', calls' := cells[s := Cell(rest, None)], calls + [b];
    forall t, a | t in cells ensures PointsTo(cells'[t], a) <==> t != s && PointsTo(cells[t], a) { }
    forall a ensures PointsTo(cells[s], a) <==> a == b { }
    hide PointsTo;
    forall a ensures a in calls' <==> a in calls || a == b { }
    forall a | a in heap && a !in calls' ensures exists t :: t in cells' && PointsTo(cells'[t], a) {
      var t :| t in cells && PointsTo(cells[t], a);
      assert PointsTo(cells'[t], a);
    }
    assert b !in calls;
    forall i, j | 0 <= i < j < |calls'| ensures calls'[i] != calls'[j] { if j == |calls| { assert calls[i] in calls; } }
  }

  /** The end of a call frees a callable of the heap. */
  lemma StoredReturn(cells: map<Slot, Cell>, heap: map<nat, Code>, calls: seq<nat>, nextAddr: nat, kinds: Code -> Kind, a: nat)
    requires Stored(cells, heap, calls + [a], nextAddr, kinds)
    ensures Stored(cells, heap - {a}, calls, nextAddr, kinds) && Contents(cells, heap - {a}) == Contents(cells, heap)
  {
    assert (calls + [a])[|calls|] == a;
    assert forall i :: 0 <= i < |calls| ==> (calls + [a])[i] == calls[i];
    forall t | t in cells ensures Typed(cells[t], heap - {a}, kinds) && Held(cells[t], heap - {a}) == Held(cells[t], heap) {
      if cells[t].vtable.Some? && !cells[t].vtable.value.small { assert PointsTo(cells[t], cells[t].buffer.addr); }
    }
  }

  class Pool {
    const kinds: Code -> Kind           // how callables are stored; whatever it is, the program sees the same
    var cells: map<Slot, Cell>
    var heap: map<nat, Code>
    var nextAddr: nat
    var next: Code
    var invoked: seq<Code>
    var failed: nat                     // calls of empty tasks
    var destroyed: seq<Code>            // destructors run on callables that were not moved away
    ghost var running: seq<Code>
    ghost var calls: seq<nat>           // heap cells of the running callables
    ghost var released: seq<Code>

    ghost predicate Valid() reads this {
      Stored(cells, heap, calls, nextAddr, kinds) && destroyed == Destructors(released, kinds)
    }

    ghost function Seen(): View reads this { View(Contents(cells, heap), running, invoked, released, failed, next) }

    constructor (kinds: Code -> Kind)
      ensures Valid() && Seen() == Empty && heap == map[] && calls == [] && this.kinds == kinds
    {
      this.kinds := kinds;
      cells, heap, nextAddr, next, invoked, failed, destroyed, running, calls, released := map[], map[], 0, 0, [], 0, [], [], [], [];
    }

    /** A new callable, in the slot or on the heap. */
    method Init(s: Slot)
      requires Valid() && s !in cells
      modifies this
      ensures Valid() && Seen() == Do(old(Seen()), Create(s)) && calls == old(calls) && running == old(running)
      ensures s in cells && Held(cells[s], heap) == Some(old(next)) && next == old(next) + 1
      ensures Elsewhere(old(Contents(cells, heap)), Contents(cells, heap), {s})
      ensures forall a :: a in old(heap) ==> a in heap && heap[a] == old(heap)[a]
    {
      hide Stored, Contents, Destructors;
      ContentsKeys(cells, heap);
      HeapBound(cells, heap, calls, nextAddr, kinds);
      var c := next;
      next := next + 1;
      if kinds(c).small {
        StoredSmall(cells, heap, calls, nextAddr, kinds, s, c);
        cells := cells[s := Cell(Object(c), Some(kinds(c)))];
      } else {
        StoredLarge(cells, heap, calls, nextAddr, kinds, s, c);
        heap := heap[nextAddr := c];
        cells := cells[s := Cell(Pointer(nextAddr), Some(kinds(c)))];
        nextAddr := nextAddr + 1;
      }
      ContentsKeys(cells, heap);
      CreateMeans(old(Seen()), s);
      hide Elsewhere, Held;
    }

    /** Destroys the callable of a slot; the slot is not to be used until its cell is written again. */
    method Clear(s: Slot)
      requires Valid() && s in cells
      modifies this`heap, this`destroyed, this`released
      ensures heap == Freed(cells[s], old(heap)) && released == old(released) + Releasing(Held(cells[s], old(heap)))
      ensures destroyed == Destructors(released, kinds)
    {
      var cell := cells[s];
      TypedHeld(cell, heap, kinds);
      if cell.vtable.Some? {
        ghost var c0 := Held(cell, heap).value;
        DestructorsPush(released, c0, kinds);
        released := released + [c0];
        if cell.vtable.value.small {
          if !cell.vtable.value.trivial { destroyed := destroyed + [cell.buffer.c]; }
        } else {
          var c := heap[cell.buffer.addr];
          if !kinds(c).trivial { destroyed := destroyed + [c]; }
          heap := heap - {cell.buffer.addr};
        }
      }
    }

    /** Takes over the callable of `from`: moved if there is a move function, copied as bytes otherwise. */
    method Take(s: Slot, from: Slot)
      requires from in cells && s != from
      modifies this`cells
      ensures exists rest :: cells == old(cells)[s := old(cells)[from]][from := Cell(rest, None)]
    {
      var cell := cells[from];
      var moves := cell.vtable.Some? && cell.vtable.value.small;
      cells := cells[s := cell];
      cells := cells[from := Cell(if moves then Raw else cell.buffer, None)];
    }

    method MoveInto(s: Slot, from: Slot)
      requires Valid() && s !in cells && from in cells
      modifies this`cells
      ensures Valid() && Seen() == Do(old(Seen()), MoveCreate(s, from))
      ensures s in cells && from in cells && Held(cells[s], heap) == Held(old(cells)[from], heap) && Held(cells[from], heap) == None
      ensures Elsewhere(old(Contents(cells, heap)), Contents(cells, heap), {s, from})
    {
      hide Stored, Contents, Destructors;
      ContentsKeys(cells, heap);
      Take(s, from);
      ghost var rest :| cells == old(cells)[s := old(cells)[from]][from := Cell(rest, None)];
      StoredMove(old(cells), heap, calls, nextAddr, kinds, s, from, rest);
      ContentsKeys(cells, heap);
      MoveMeans(old(Seen()), s, from);
      hide Elsewhere, Held;
    }

    method MoveOver(s: Slot, from: Slot)
      requires Valid() && s in cells && from in cells && s != from
      modifies this`cells, this`heap, this`destroyed, this`released
      ensures Valid() && Seen() == Do(old(Seen()), MoveAssign(s, from))
      ensures s in cells && from in cells && Held(cells[s], heap) == Held(old(cells)[from], old(heap)) && Held(cells[from], heap) == None
      ensures Elsewhere(old(Contents(cells, heap)), Contents(cells, heap), {s, from})
      ensures released == old(released) + Releasing(Held(old(cells)[s], old(heap)))
      ensures forall a :: a in calls ==> a in heap && (a in old(heap) ==> heap[a] == old(heap)[a])
    {
      hide Stored, Contents, Destructors;
      ContentsKeys(cells, heap);
      Clear(s);
      Take(s, from);
      ghost var rest :| cells == old(cells)[s := old(cells)[from]][from := Cell(rest, None)];
      StoredOver(old(cells), old(heap), calls, nextAddr, kinds, s, from, rest);
      ContentsKeys(cells, heap);
      MoveMeans(old(Seen()), s, from);
      hide Elsewhere, Held, Freed;
    }

    method Destroy(s: Slot)
      requires Valid() && s in cells
      modifies this`cells, this`heap, this`destroyed, this`released
      ensures Valid() && Seen() == Do(old(Seen()), Drop(s))
      ensures s !in cells && Elsewhere(old(Contents(cells, heap)), Contents(cells, heap), {s})
      ensures released == old(released) + Releasing(Held(old(cells)[s], old(heap)))
      ensures forall a :: a in calls ==> a in heap && (a in old(heap) ==> heap[a] == old(heap)[a])
    {
      hide Stored, Contents, Destructors;
      ContentsKeys(cells, heap);
      StoredDrop(cells, heap, calls, nextAddr, kinds, s);
      FreedHeap(cells, heap, calls, nextAddr, kinds, s);
      Clear(s);
      cells := cells - {s};
    }

    /** A task moved to itself: the callable is lost, and destroyed twice if it is in the slot and has a destructor. */
    method MoveSelf(s: Slot)
      requires Valid() && s in cells
      modifies this`cells, this`heap, this`destroyed, this`released
      ensures var o := old(cells)[s].vtable; Valid() <==> !(o.Some? && o.value.small && !o.value.trivial)
      ensures Contents(cells, heap) == old(Contents(cells, heap))[s := None]
      ensures released == old(released) + Releasing(Held(old(cells)[s], old(heap)))
    {
      var cell := cells[s];
      TypedHeld(cell, heap, kinds);
      StoredDrop(cells, heap, calls, nextAddr, kinds, s);
      hide Stored, Contents, Destructors;
      Clear(s);
      var moves := cell.vtable.Some? && cell.vtable.value.small;
      if moves && !cell.vtable.value.trivial { destroyed := destroyed + [cell.buffer.c]; }
      StoredEmpty(cells - {s}, heap, calls, nextAddr, kinds, s, if moves then Raw else cell.buffer);
      assert (cells - {s})[s := Cell(if moves then Raw else cell.buffer, None)] == cells[s := Cell(if moves then Raw else cell.buffer, None)];
      cells := cells[s := Cell(if moves then Raw else cell.buffer, None)];
      SlotEmptied(old(Contents(cells, heap)), s);
    }

    /** The start of a call: the slot becomes empty before the callable runs. */
    method Start(s: Slot) returns (c: Code, at: Option<nat>)
      requires Valid() && s in cells && cells[s].vtable.Some?
      modifies this
      ensures Valid() && heap == old(heap) && Held(old(cells)[s], heap) == Some(c) && Seen() == Invoked(old(Seen()), s)
      ensures running == old(running) + [c] && calls == if at.Some? then old(calls) + [at.value] else old(calls)
      ensures at.Some? <==> !kinds(c).small
      ensures at.Some? ==> at.value in heap && heap[at.value] == c
    {
      hide Destructors, Contents;
      var cell := cells[s];
      TypedHeld(cell, heap, kinds);
      ContentsKeys(cells, heap);
      StoredInvoke(cells, heap, calls, nextAddr, kinds, s, if cell.vtable.value.small then Raw else cell.buffer);
      if cell.vtable.value.small {
        c, at := cell.buffer.c, None;
        cells := cells[s := Cell(Raw, None)];
      } else {
        c, at := heap[cell.buffer.addr], Some(cell.buffer.addr);
        cells := cells[s := Cell(cell.buffer, None)];
        calls := calls + [cell.buffer.addr];
      }
      hide Stored;
      running, invoked := running + [c], invoked + [c];
    }

    /** The end of a call: the callable is destroyed, wherever it is. */
    method Finish(c: Code, at: Option<nat>)
      requires Valid() && running != [] && running[|running| - 1] == c
      requires at.Some? ==> at.value in heap && heap[at.value] == c && calls != [] && calls[|calls| - 1] == at.value
      modifies this
      ensures Valid() && Seen() == Returned(old(Seen())) && next == old(next)
      ensures calls == if at.Some? then old(calls)[..|old(calls)| - 1] else old(calls)
      ensures heap == if at.Some? then old(heap) - {at.value} else old(heap)
    {
      hide Stored, Contents, Destructors;
      DestructorsPush(released, c, kinds);
      if !kinds(c).trivial { destroyed := destroyed + [c]; }
      if at.Some? {
        ghost var front := calls[..|calls| - 1];
        assert front + [at.value] == calls;
        StoredReturn(cells, heap, front, nextAddr, kinds, at.value);
        heap := heap - {at.value};
        calls := front;
      }
      released := released + [c];
      running := running[..|running| - 1];
    }

    /** One operation; what the program sees of it does not depend on how callables are stored. */
    method Perform(op: Op)
      requires Valid()
      modifies this
      ensures Valid() && Seen() == Do(old(Seen()), op) && calls == old(calls) && running == old(running)
      ensures forall a :: a in old(calls) && a in old(heap) ==> a in heap && heap[a] == old(heap)[a]
      decreases op, 0
    {
      hide Stored, Contents, Destructors, Do;
      DoCases(Seen(), op);
      ContentsKeys(cells, heap);
      if Legal(cells.Keys, op) {
        match op {
          case Create(s) => Init(s);
          case CreateEmpty(s) =>
            StoredEmpty(cells, heap, calls, nextAddr, kinds, s, Raw);
            cells := cells[s := Cell(Raw, None)];
          case MoveCreate(s, from) => MoveInto(s, from);
          case MoveAssign(s, from) => MoveOver(s, from);
          case Call(s, body) =>
            CellsTyped(cells, heap, calls, nextAddr, kinds, s);
            if cells[s].vtable.None? {
              failed := failed + 1;
            } else {
              PerformCall(s, body);
            }
          case Drop(s) => Destroy(s);
        }
      }
    }

    method PerformCall(s: Slot, body: seq<Op>)
      requires Valid() && s in cells && cells[s].vtable.Some? && Contents(cells, heap)[s].Some?
      modifies this
      ensures Valid() && Seen() == Returned(DoAll(Invoked(old(Seen()), s), body)) && calls == old(calls) && running == old(running)
      ensures forall a :: a in old(calls) && a in old(heap) ==> a in heap && heap[a] == old(heap)[a]
      decreases body, 1
    {
      hide Stored, Contents, Destructors;
      var c, at := Start(s);
      CallsDistinct(cells, heap, calls, nextAddr, kinds);
      PerformAll(body);
      Finish(c, at);
    }

    method PerformAll(ops: seq<Op>)
      requires Valid()
      modifies this
      ensures Valid() && Seen() == DoAll(old(Seen()), ops) && calls == old(calls) && running == old(running)
      ensures forall a :: a in old(calls) && a in old(heap) ==> a in heap && heap[a] == old(heap)[a]
      decreases ops, 0
    {
      hide Stored, Contents, Destructors, Do;
      var i := 0;
      while i < |ops|
        invariant i <= |ops| && Valid() && Seen() == DoAll(old(Seen()), ops[..i]) && calls == old(calls) && running == old(running)
        invariant forall a :: a in old(calls) && a in old(heap) ==> a in heap && heap[a] == old(heap)[a]
      {
        assert ops[..i + 1][..i] == ops[..i];
        assert ops[i] in ops;
        Perform(ops[i]);
        i := i + 1;
      }
      assert ops[..|ops|] == ops;
    }

    /** A whole program: each callable whose destructor matters is destroyed when it is released, and nothing else. */
    method RunProgram(ops: seq<Op>)
      requires Valid() && Seen() == Empty && calls == []
      modifies this
      ensures Valid() && Seen() == DoAll(Empty, ops)
      ensures NoRepeats(destroyed) && forall c: Code :: c in destroyed <==> c in released && !kinds(c).trivial
      ensures cells == map[] ==> heap == map[]
    {
      PerformAll(ops);
      DoAllAccounted(Empty, ops);
      DestructorsOnce(released, kinds);
    }
  }

  /** `Do`, case by case. */
  lemma DoCases(v: View, op: Op)
    ensures !Legal(v.slots.Keys, op) ==> Do(v, op) == v
    ensures Legal(v.slots.Keys, op) && op.CreateEmpty? ==> Do(v, op) == v.(slots := v.slots[op.s := None])
    ensures Legal(v.slots.Keys, op) && op.Call? && v.slots[op.s].None? ==> Do(v, op) == v.(failed := v.failed + 1)
    ensures Legal(v.slots.Keys, op) && op.Call? && v.slots[op.s].Some? ==> Do(v, op) == Returned(DoAll(Invoked(v, op.s), op.body))
  {
  }

  lemma SlotEmptied(slots: map<Slot, Option<Code>>, s: Slot)
    ensures (slots - {s})[s := None] == slots[s := None]
  {
  }

  lemma StoredEmpty(cells: map<Slot, Cell>, heap: map<nat, Code>, calls: seq<nat>, nextAddr: nat, kinds: Code -> Kind, s: Slot, rest: Buffer)
    requires Stored(cells, heap, calls, nextAddr, kinds) && s !in cells
    ensures var cells' := cells[s := Cell(rest, None)];
            Stored(cells', heap, calls, nextAddr, kinds) && Contents(cells', heap) == Contents(cells, heap)[s := None]
  {
    var cells' := cells[s := Cell(rest, None)];
    assert AllTyped(cells', heap, kinds);
    assert Contents(cells', heap) == Contents(cells, heap)[s := None];
    hide AllTyped, Held;
    forall t, a | t in cells' ensures PointsTo(cells'[t], a) <==> t != s && PointsTo(cells[t], a) { }
    hide PointsTo;
    forall a | a in heap && a !in calls ensures exists t :: t in cells' && PointsTo(cells'[t], a) {
      var t :| t in cells && PointsTo(cells[t], a);
      assert PointsTo(cells'[t], a);
    }
  }

  lemma CellsTyped(cells: map<Slot, Cell>, heap: map<nat, Code>, calls: seq<nat>, nextAddr: nat, kinds: Code -> Kind, s: Slot)
    requires Stored(cells, heap, calls, nextAddr, kinds) && s in cells
    ensures cells[s].vtable.Some? <==> Held(cells[s], heap).Some?
  {
    TypedHeld(cells[s], heap, kinds);
  }

  lemma CallsDistinct(cells: map<Slot, Cell>, heap: map<nat, Code>, calls: seq<nat>, nextAddr: nat, kinds: Code -> Kind)
    requires Stored(cells, heap, calls, nextAddr, kinds)
    ensures forall i, j :: 0 <= i < j < |calls| ==> calls[i] != calls[j]
    ensures forall a :: a in calls ==> a in heap
  {
  }

  lemma {:induction false} DestructorsOnce(released: seq<Code>, kinds: Code -> Kind)
    requires NoRepeats(released)
    ensures NoRepeats(Destructors(released, kinds))
    ensures forall c: Code :: c in Destructors(released, kinds) <==> c in released && !kinds(c).trivial
  {
    if released != [] {
      var n := |released| - 1;
      DestructorsOnce(released[..n], kinds);
      assert released[..n] + [released[n]] == released;
    }
  }

  lemma ContentsKeys(cells: map<Slot, Cell>, heap: map<nat, Code>)
    ensures Contents(cells, heap).Keys == cells.Keys && forall s :: s in cells ==> Contents(cells, heap)[s] == Held(cells[s], heap)
  {
  }

  lemma HeapBound(cells: map<Slot, Cell>, heap: map<nat, Code>, calls: seq<nat>, nextAddr: nat, kinds: Code -> Kind)
    requires Stored(cells, heap, calls, nextAddr, kinds)
    ensures nextAddr !in heap
  {
  }

  lemma MovedOver(slots: map<Slot, Option<Code>>, s: Slot, from: Slot, o: Option<Code>)
    ensures (slots - {s})[s := o][from := None] == slots[s := o][from := None]
  {
  }
}
