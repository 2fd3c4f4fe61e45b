/** The producers and consumers of a bounded buffer, as interleaved atomic steps of any number of threads. */
module BoundedBuffer {
  import opened Common

  datatype Role = Producer | Consumer

  /** `done` rounds of the loop are over; `pc` is the next statement of the current one. */
  datatype Thread = Thread(role: Role, amount: nat, done: nat, pc: nat)

  datatype Item = Item(producer: nat, number: nat)

  /** `inserted` and `removed` record the items written to and read from the buffer, in order. */
  datatype State = State(threads: seq<Thread>, buffer: seq<Item>, inPos: nat, outPos: nat, empty: nat, full: nat,
                         holder: Option<nat>, inserted: seq<Item>, removed: seq<Item>)

  const WAIT := 0    // sem_wait
  const LOCK := 1    // pthread_mutex_lock
  const ACCESS := 2  // write or read the slot
  const MOVE := 3    // advance the index
  const UNLOCK := 4  // pthread_mutex_unlock
  const POST := 5    // sem_post

  predicate Over(th: Thread) { th.done >= th.amount }

  /** One atomic step of thread `t`, or nothing when it is finished or blocked. */
  function Next(s: State, t: nat): Option<State>
    requires t < |s.threads| && |s.buffer| > 0
  {
    var th := s.threads[t];
    var moved := s.(threads := s.threads[t := th.(pc := th.pc + 1)]);
    if Over(th) then None
    else if th.pc == WAIT then
      if th.role == Producer then (if s.empty == 0 then None else Some(moved.(empty := s.empty - 1)))
      else (if s.full == 0 then None else Some(moved.(full := s.full - 1)))
    else if th.pc == LOCK then
      if s.holder.Some? then None else Some(moved.(holder := Some(t)))
    else if th.pc == ACCESS then
      if th.role == Producer then
        if s.inPos >= |s.buffer| then None
        else Some(moved.(buffer := s.buffer[s.inPos := Item(t, th.done)], inserted := s.inserted + [Item(t, th.done)]))
      else
        if s.outPos >= |s.buffer| then None
        else Some(moved.(removed := s.removed + [s.buffer[s.outPos]]))
    else if th.pc == MOVE then
      if th.role == Producer then Some(moved.(inPos := (s.inPos + 1) % |s.buffer|))
      else Some(moved.(outPos := (s.outPos + 1) % |s.buffer|))
    else if th.pc == UNLOCK then
      Some(moved.(holder := None))
    else
      var again := s.(threads := s.threads[t := th.(done := th.done + 1, pc := WAIT)]);
      if th.role == Producer then Some(again.(full := s.full + 1)) else Some(again.(empty := s.empty + 1))
  }

  ghost predicate Initial(s: State) {
    && |s.buffer| > 0 && s.inPos == s.outPos == 0 && s.empty == |s.buffer| && s.full == 0
    && s.holder == None && s.inserted == [] && s.removed == []
    && forall t :: 0 <= t < |s.threads| ==> s.threads[t].done == 0 && s.threads[t].pc == WAIT
  }

  /** The state after the steps of the given threads, in that order, if none of them was blocked. */
  function Run(s: State, choices: seq<nat>): Option<State>
    requires |s.buffer| > 0
  {
    if choices == [] then Some(s)
    else
      var r := Run(s, choices[..|choices| - 1]);
      var t := choices[|choices| - 1];
      if r.None? || t >= |r.value.threads| || |r.value.buffer| == 0 then None else Next(r.value, t)
  }

  ghost predicate Stuck(s: State)
    requires |s.buffer| > 0
  {
    forall t: nat :: t < |s.threads| ==> Next(s, t).None?
  }

  predicate Finished(s: State) { forall t :: 0 <= t < |s.threads| ==> Over(s.threads[t]) }

  // ----- Counting threads -----

  function Sum(ths: seq<Thread>, f: Thread -> int): int {
    if ths == [] then 0 else Sum(ths[..|ths| - 1], f) + f(ths[|ths| - 1])
  }

  lemma {:induction false} SumUpdate(ths: seq<Thread>, f: Thread -> int, t: nat, th: Thread)
    requires t < |ths|
    ensures Sum(ths[t := th], f) == Sum(ths, f) - f(ths[t]) + f(th)
  {
    var n := |ths| - 1;
    if t < n {
      assert ths[t := th][..n] == ths[..n][t := th];
      SumUpdate(ths[..n], f, t, th);
    } else {
      assert ths[t := th][..n] == ths[..n];
    }
  }

  lemma {:induction false} SumAtLeast(ths: seq<Thread>, f: Thread -> int, t: nat)
    requires t < |ths| && forall th :: f(th) >= 0
    ensures Sum(ths, f) >= f(ths[t])
  {
    var n := |ths| - 1;
    SumNonNegative(ths[..n], f);
    if t < n { SumAtLeast(ths[..n], f, t); }
  }

  lemma {:induction false} SumNonNegative(ths: seq<Thread>, f: Thread -> int)
    requires forall th :: f(th) >= 0
    ensures Sum(ths, f) >= 0
  {
    if ths != [] { SumNonNegative(ths[..|ths| - 1], f); }
  }

  lemma {:induction false} SumSame(ths: seq<Thread>, f: Thread -> int, g: Thread -> int)
    requires forall t :: 0 <= t < |ths| ==> f(ths[t]) == g(ths[t])
    ensures Sum(ths, f) == Sum(ths, g)
  {
    if ths != [] { SumSame(ths[..|ths| - 1], f, g); }
  }

  lemma {:induction false} SumLess(ths: seq<Thread>, f: Thread -> int, g: Thread -> int)
    requires forall t :: 0 <= t < |ths| ==> f(ths[t]) <= g(ths[t])
    ensures Sum(ths, f) <= Sum(ths, g)
    ensures (exists t :: 0 <= t < |ths| && f(ths[t]) < g(ths[t])) ==> Sum(ths, f) < Sum(ths, g)
  {
    if ths != [] { SumLess(ths[..|ths| - 1], f, g); }
  }

  function One(b: bool): int { if b then 1 else 0 }

  // Producers holding a free slot not yet filled; consumers having freed a slot not yet posted.
  function Claiming(th: Thread): int { One(th.role == Producer && (th.pc == LOCK || th.pc == ACCESS)) }
  function Freeing(th: Thread): int { One(th.role == Consumer && th.pc >= MOVE) }
  // Producers having filled a slot not yet posted; consumers holding a full slot not yet read.
  function Filling(th: Thread): int { One(th.role == Producer && th.pc >= MOVE) }
  function Taking(th: Thread): int { One(th.role == Consumer && (th.pc == LOCK || th.pc == ACCESS)) }
  function InFlight(th: Thread): int { One(th.pc != WAIT) }
  function Produced(th: Thread): int { if th.role == Producer then th.done + One(th.pc >= MOVE) else 0 }
  function Consumed(th: Thread): int { if th.role == Consumer then th.done + One(th.pc >= MOVE) else 0 }
  function ToProduce(th: Thread): int { if th.role == Producer then th.amount else 0 }
  function ToConsume(th: Thread): int { if th.role == Consumer then th.amount else 0 }
  function StepsLeft(th: Thread): int { 6 * (th.amount - th.done) - th.pc }

  // ----- The invariant -----

  predicate Locked(th: Thread) { ACCESS <= th.pc <= UNLOCK }

  ghost predicate ThreadsSane(s: State) {
    && (forall t :: 0 <= t < |s.threads| ==>
          s.threads[t].done <= s.threads[t].amount && s.threads[t].pc <= POST
          && (s.threads[t].pc != WAIT ==> s.threads[t].done < s.threads[t].amount))
    && (forall t :: 0 <= t < |s.threads| ==> (Locked(s.threads[t]) <==> s.holder == Some(t)))
    && (s.holder.Some? ==> s.holder.value < |s.threads|)
  }

  /** Whether the lock holder has accessed its slot but not yet moved on. */
  predicate Lags(s: State, role: Role) {
    s.holder.Some? && s.holder.value < |s.threads| && s.threads[s.holder.value].role == role && s.threads[s.holder.value].pc == MOVE
  }

  /** Both semaphores count slots, up to the threads under way. */
  ghost predicate Balanced(s: State) {
    && |s.inserted| - |s.removed| == s.full + Sum(s.threads, Filling) + Sum(s.threads, Taking)
    && |s.buffer| - (|s.inserted| - |s.removed|) == s.empty + Sum(s.threads, Claiming) + Sum(s.threads, Freeing)
    && |s.inserted| == Sum(s.threads, Produced) && |s.removed| == Sum(s.threads, Consumed)
  }

  /** Slot of the `k`-th item. */
  function Slot(k: int, n: nat): (i: nat)
    requires n > 0
    ensures i < n
  {
    k % n
  }

  /** The items not yet removed are in the buffer, and removals follow insertions. */
  ghost predicate InOrder(s: State)
    requires |s.buffer| > 0
  {
    && |s.removed| <= |s.inserted| && s.removed == s.inserted[..|s.removed|]
    && s.inPos == Slot(|s.inserted| - One(Lags(s, Producer)), |s.buffer|)
    && s.outPos == Slot(|s.removed| - One(Lags(s, Consumer)), |s.buffer|)
    && forall k :: |s.removed| <= k < |s.inserted| ==> s.buffer[Slot(k, |s.buffer|)] == s.inserted[k]
  }

  ghost predicate Inv(s: State) {
    |s.buffer| > 0 && ThreadsSane(s) && Balanced(s) && InOrder(s)
  }

  lemma {:induction false} AllZero(ths: seq<Thread>, f: Thread -> int)
    requires forall t :: 0 <= t < |ths| ==> f(ths[t]) == 0
    ensures Sum(ths, f) == 0
  {
    if ths != [] { AllZero(ths[..|ths| - 1], f); }
  }

  lemma InitialInv(s: State)
    requires Initial(s)
    ensures Inv(s)
  {
    AllZero(s.threads, Filling);
    AllZero(s.threads, Taking);
    AllZero(s.threads, Claiming);
    AllZero(s.threads, Freeing);
    AllZero(s.threads, Produced);
    AllZero(s.threads, Consumed);
  }

  lemma SaneNext(s: State, t: nat)
    requires Inv(s) && t < |s.threads| && Next(s, t).Some?
    ensures ThreadsSane(Next(s, t).value)
  {
    StepMoves(s, t);
    hide Balanced, InOrder, Next;
  }

  /** One thread moves; the lock is taken or given back only by it. */
  lemma StepMoves(s: State, t: nat)
    requires |s.buffer| > 0 && t < |s.threads| && Next(s, t).Some?
    ensures var s', th := Next(s, t).value, s.threads[t];
            && (exists th' :: s'.threads == s.threads[t := th'] && StepOf(th, th'))
            && s'.holder == (if th.pc == LOCK then Some(t) else if th.pc == UNLOCK then None else s.holder)
            && (th.pc == LOCK ==> s.holder.None?)
  {
    assert StepOf(s.threads[t], Next(s, t).value.threads[t]);
  }

  predicate StepOf(th: Thread, th': Thread) {
    !Over(th) && th' == if th.pc < POST then th.(pc := th.pc + 1) else th.(done := th.done + 1, pc := WAIT)
  }

  /** How one step of a thread moves the counts. */
  lemma CountsNext(s: State, t: nat, th': Thread)
    requires t < |s.threads|
    ensures var ths, ths', th := s.threads, s.threads[t := th'], s.threads[t];
            && Sum(ths', Filling) == Sum(ths, Filling) - Filling(th) + Filling(th')
            && Sum(ths', Taking) == Sum(ths, Taking) - Taking(th) + Taking(th')
            && Sum(ths', Claiming) == Sum(ths, Claiming) - Claiming(th) + Claiming(th')
            && Sum(ths', Freeing) == Sum(ths, Freeing) - Freeing(th) + Freeing(th')
            && Sum(ths', Produced) == Sum(ths, Produced) - Produced(th) + Produced(th')
            && Sum(ths', Consumed) == Sum(ths, Consumed) - Consumed(th) + Consumed(th')
  {
    SumUpdate(s.threads, Filling, t, th');
    SumUpdate(s.threads, Taking, t, th');
    SumUpdate(s.threads, Claiming, t, th');
    SumUpdate(s.threads, Freeing, t, th');
    SumUpdate(s.threads, Produced, t, th');
    SumUpdate(s.threads, Consumed, t, th');
  }

  lemma BalancedNext(s: State, t: nat)
    requires Inv(s) && t < |s.threads| && Next(s, t).Some?
    ensures Balanced(Next(s, t).value)
  {
    hide InOrder, Sum;
    CountsNext(s, t, Next(s, t).value.threads[t]);
  }

  lemma SlotsApart(a: int, b: int, n: nat)
    requires n > 0 && a < b < a + n
    ensures Slot(a, n) != Slot(b, n)
  {
    if a % n == b % n {
      assert b - a == (b / n - a / n) * n;
      Multiples(b / n - a / n, n);
    }
  }

  lemma Multiples(k: int, n: nat)
    ensures k >= 1 ==> k * n >= n
    ensures k <= 0 ==> k * n <= 0
  {
  }

  lemma SlotNext(k: int, n: nat)
    requires n > 0
    ensures (Slot(k, n) + 1) % n == Slot(k + 1, n)
  {
    var q, i := k / n, k % n;
    assert k == q * n + i;
    if i + 1 < n {
      Quotient(k + 1, q, i + 1, n);
      Quotient(i + 1, 0, i + 1, n);
    } else {
      assert (q + 1) * n == q * n + n;
      Quotient(k + 1, q + 1, 0, n);
      Quotient(n, 1, 0, n);
    }
  }

  lemma Quotient(x: int, q: int, i: nat, n: nat)
    requires x == q * n + i && i < n
    ensures x % n == i
  {
    assert x == (x / n) * n + x % n;
    assert (x / n - q) * n == i - x % n;
    Multiples(x / n - q, n);
    Multiples(q - x / n, n);
  }

  /** A producer about to write has a slot that holds no item still to be removed. */
  lemma NoOverwrite(s: State, t: nat, k: nat)
    requires Inv(s) && t < |s.threads| && s.threads[t].role == Producer && s.threads[t].pc == ACCESS
    requires |s.removed| <= k < |s.inserted|
    ensures s.inPos == Slot(|s.inserted|, |s.buffer|) && Slot(k, |s.buffer|) != s.inPos
  {
    hide Slot, Sum;
    assert Locked(s.threads[t]);
    SumAtLeast(s.threads, Claiming, t);
    SumNonNegative(s.threads, Freeing);
    SlotsApart(k, |s.inserted|, |s.buffer|);
  }

  /** A consumer about to read finds the oldest item not yet removed. */
  lemma ReadsOldest(s: State, t: nat)
    requires Inv(s) && t < |s.threads| && s.threads[t].role == Consumer && s.threads[t].pc == ACCESS
    ensures |s.removed| < |s.inserted| && s.buffer[s.outPos] == s.inserted[|s.removed|]
  {
    hide Slot, Sum;
    assert Locked(s.threads[t]);
    SumAtLeast(s.threads, Taking, t);
    SumNonNegative(s.threads, Filling);
  }

  lemma InOrderNext(s: State, t: nat)
    requires Inv(s) && t < |s.threads| && Next(s, t).Some?
    ensures InOrder(Next(s, t).value)
  {
    if s.threads[t].pc == ACCESS {
      AccessInOrder(s, t);
    } else if s.threads[t].pc == MOVE {
      MoveInOrder(s, t);
    } else {
      OtherInOrder(s, t);
    }
  }

  lemma MoveInOrder(s: State, t: nat)
    requires Inv(s) && t < |s.threads| && Next(s, t).Some? && s.threads[t].pc == MOVE
    ensures InOrder(Next(s, t).value)
  {
    hide Slot, Sum, Balanced;
    assert s.holder == Some(t);
    SlotNext(|s.inserted| - 1, |s.buffer|);
    SlotNext(|s.removed| - 1, |s.buffer|);
  }

  lemma OtherInOrder(s: State, t: nat)
    requires Inv(s) && t < |s.threads| && Next(s, t).Some? && s.threads[t].pc != ACCESS && s.threads[t].pc != MOVE
    ensures InOrder(Next(s, t).value)
  {
    SameLag(s, t, Producer);
    SameLag(s, t, Consumer);
    hide Slot, Sum, Balanced, Lags, ThreadsSane;
  }

  lemma SameLag(s: State, t: nat, role: Role)
    requires Inv(s) && t < |s.threads| && Next(s, t).Some? && s.threads[t].pc != ACCESS && s.threads[t].pc != MOVE
    ensures Lags(Next(s, t).value, role) == Lags(s, role)
  {
    hide Balanced, InOrder;
  }

  lemma AccessInOrder(s: State, t: nat)
    requires Inv(s) && t < |s.threads| && Next(s, t).Some? && s.threads[t].pc == ACCESS
    ensures InOrder(Next(s, t).value)
  {
    hide Slot, Sum, Balanced;
    var th, s' := s.threads[t], Next(s, t).value;
    assert s.holder == Some(t);
    if th.role == Producer {
      forall k | |s.removed| <= k < |s.inserted| ensures s'.buffer[Slot(k, |s.buffer|)] == s'.inserted[k] {
        NoOverwrite(s, t, k);
      }
    } else {
      ReadsOldest(s, t);
      assert s'.removed == s.inserted[..|s.removed| + 1];
    }
  }

  /** Every step keeps the invariant. */
  lemma InvNext(s: State, t: nat)
    requires Inv(s) && t < |s.threads| && Next(s, t).Some?
    ensures Inv(Next(s, t).value)
  {
    SaneNext(s, t);
    BalancedNext(s, t);
    InOrderNext(s, t);
  }

  lemma {:induction false} RunInv(s: State, choices: seq<nat>)
    requires Initial(s) && Run(s, choices).Some?
    ensures Inv(Run(s, choices).value)
  {
    if choices == [] {
      InitialInv(s);
    } else {
      RunInv(s, choices[..|choices| - 1]);
      InvNext(Run(s, choices[..|choices| - 1]).value, choices[|choices| - 1]);
    }
  }

  // ----- Safety of every run -----

  lemma {:induction false} InFlightSplit(ths: seq<Thread>)
    ensures Sum(ths, InFlight) == Sum(ths, Claiming) + Sum(ths, Freeing) + Sum(ths, Filling) + Sum(ths, Taking)
  {
    if ths != [] { InFlightSplit(ths[..|ths| - 1]); }
  }

  /** In every run: removals follow insertions in order, the semaphores account for every slot, the buffer never
      overflows, and at most one thread is between lock and unlock. */
  lemma Safety(s: State, choices: seq<nat>)
    requires Initial(s) && Run(s, choices).Some?
    ensures var r := Run(s, choices).value;
            && r.removed <= r.inserted && |r.inserted| - |r.removed| <= |r.buffer|
            && r.empty + r.full + Sum(r.threads, InFlight) == |r.buffer|
            && (forall t, u :: 0 <= t < |r.threads| && 0 <= u < |r.threads| && Locked(r.threads[t]) && Locked(r.threads[u]) ==> t == u)
  {
    RunInv(s, choices);
    var r := Run(s, choices).value;
    InFlightSplit(r.threads);
    SumNonNegative(r.threads, Claiming);
    SumNonNegative(r.threads, Freeing);
    assert r.inserted[..|r.removed|] <= r.inserted;
  }

  // ----- Which items are inserted and removed -----

  /** The numbers of the items of producer `t`, in order. */
  function Numbers(q: seq<Item>, t: nat): seq<nat> {
    if q == [] then []
    else
      var x := q[|q| - 1];
      Numbers(q[..|q| - 1], t) + if x.producer == t then [x.number] else []
  }

  /** The items that a thread has written so far. */
  function Written(th: Thread): nat { if th.role == Producer then th.done + (if th.pc > ACCESS then 1 else 0) else 0 }

  /** Every producer has written its items in order: 0, 1, 2, ... */
  ghost predicate Numbered(s: State) {
    && (forall x :: x in s.inserted ==> x.producer < |s.threads|)
    && forall t: nat :: t < |s.threads| ==>
         |Numbers(s.inserted, t)| == Written(s.threads[t]) && forall i :: 0 <= i < |Numbers(s.inserted, t)| ==> Numbers(s.inserted, t)[i] == i
  }

  lemma NumberedNext(s: State, t: nat)
    requires Inv(s) && Numbered(s) && t < |s.threads| && Next(s, t).Some?
    ensures Numbered(Next(s, t).value)
  {
    hide Balanced, InOrder, Numbers;
    var s', th := Next(s, t).value, s.threads[t];
    if th.role == Producer && th.pc == ACCESS {
      var x := Item(t, th.done);
      forall u: nat ensures Numbers(s'.inserted, u) == Numbers(s.inserted, u) + if u == t then [x.number] else [] {
        NumbersPush(s.inserted, x, u);
      }
    } else {
      assert s'.inserted == s.inserted;
    }
  }

  lemma NumbersPush(q: seq<Item>, x: Item, t: nat)
    ensures Numbers(q + [x], t) == Numbers(q, t) + if x.producer == t then [x.number] else []
  {
    assert (q + [x])[..|q|] == q;
  }

  lemma {:induction false} RunNumbered(s: State, choices: seq<nat>)
    requires Initial(s) && Run(s, choices).Some?
    ensures Numbered(Run(s, choices).value)
  {
    if choices != [] {
      var n := |choices| - 1;
      RunNumbered(s, choices[..n]);
      RunInv(s, choices[..n]);
      NumberedNext(Run(s, choices[..n]).value, choices[n]);
    }
  }

  /** Where the `k`-th number of a producer comes from. */
  lemma {:induction false} NumberAt(q: seq<Item>, t: nat, k: nat) returns (i: nat)
    requires k < |Numbers(q, t)|
    ensures i < |q| && q[i] == Item(t, Numbers(q, t)[k]) && |Numbers(q[..i], t)| == k
  {
    var n := |q| - 1;
    if k < |Numbers(q[..n], t)| {
      i := NumberAt(q[..n], t, k);
      assert q[..n][..i] == q[..i];
    } else {
      i := n;
    }
  }

  lemma {:induction false} NumberOf(q: seq<Item>, i: nat)
    requires i < |q|
    ensures |Numbers(q[..i], q[i].producer)| < |Numbers(q, q[i].producer)|
    ensures Numbers(q, q[i].producer)[|Numbers(q[..i], q[i].producer)|] == q[i].number
  {
    var n := |q| - 1;
    if i < n {
      NumberOf(q[..n], i);
      assert q[..n][..i] == q[..i];
    }
  }

  lemma {:induction false} NumbersGrow(q: seq<Item>, i: nat, j: nat, t: nat)
    requires i <= j <= |q|
    ensures |Numbers(q[..i], t)| <= |Numbers(q[..j], t)|
    decreases j
  {
    if i < j {
      assert q[..j][..j - 1] == q[..j - 1];
      NumbersGrow(q, i, j - 1, t);
    }
  }

  lemma WrittenIff(s: State, x: Item)
    requires Numbered(s)
    ensures x in s.inserted <==> x.producer < |s.threads| && x.number < Written(s.threads[x.producer])
  {
    hide Written, Numbers;
    if x in s.inserted {
      var i: nat :| i < |s.inserted| && s.inserted[i] == x;
      NumberOf(s.inserted, i);
    }
    if x.producer < |s.threads| && x.number < Written(s.threads[x.producer]) {
      var i := NumberAt(s.inserted, x.producer, x.number);
    }
  }

  /** In every run, each producer inserts its items 0, 1, 2, ... in this order, as many as it has written, and so no
      item twice; none is removed twice. */
  lemma ItemsOnce(s: State, choices: seq<nat>)
    requires Initial(s) && Run(s, choices).Some?
    ensures var r := Run(s, choices).value;
            && (forall t: nat, i: nat :: Item(t, i) in r.inserted <==>
                  t < |r.threads| && r.threads[t].role == Producer && i < r.threads[t].done + (if r.threads[t].pc > ACCESS then 1 else 0))
            && (forall i, j :: 0 <= i < j < |r.inserted| && r.inserted[i].producer == r.inserted[j].producer ==>
                  r.inserted[i].number < r.inserted[j].number)
            && NoRepeats(r.inserted) && NoRepeats(r.removed)
  {
    RunNumbered(s, choices);
    Safety(s, choices);
    var r := Run(s, choices).value;
    hide Run, Numbered;
    forall x: Item ensures x in r.inserted <==> x.producer < |r.threads| && x.number < Written(r.threads[x.producer]) { WrittenIff(r, x); }
    forall i, j | 0 <= i < j < |r.inserted| && r.inserted[i].producer == r.inserted[j].producer
      ensures r.inserted[i].number < r.inserted[j].number
    {
      InsertedInOrder(r, i, j);
    }
  }

  lemma InsertedInOrder(s: State, i: nat, j: nat)
    requires Numbered(s) && i < j < |s.inserted| && s.inserted[i].producer == s.inserted[j].producer
    ensures s.inserted[i].number < s.inserted[j].number
  {
    var q := s.inserted;
    assert q[i] in q;
    NumberOf(q, i);
    NumberOf(q, j);
    NumbersGrow(q, i + 1, j, q[i].producer);
    assert q[..i + 1][..i] == q[..i];
  }

  lemma {:induction false} RunSame(s: State, choices: seq<nat>, t: nat)
    requires Initial(s) && Run(s, choices).Some? && t < |s.threads|
    ensures var r := Run(s, choices).value;
            |r.threads| == |s.threads| && r.threads[t].role == s.threads[t].role && r.threads[t].amount == s.threads[t].amount
  {
    if choices != [] {
      var n := |choices| - 1;
      RunSame(s, choices[..n], t);
      RunInv(s, choices[..n]);
      StepMoves(Run(s, choices[..n]).value, choices[n]);
      hide Next, Inv;
    }
  }

  /** Once all threads are finished, exactly the items asked of each producer have been inserted and as many removed as
      asked of the consumers; when these are as many, every item has been removed exactly once. */
  lemma AllDelivered(s: State, choices: seq<nat>)
    requires Initial(s) && Run(s, choices).Some? && Finished(Run(s, choices).value)
    ensures var r := Run(s, choices).value;
            && (forall t: nat, i: nat :: Item(t, i) in r.inserted <==>
                  t < |s.threads| && s.threads[t].role == Producer && i < s.threads[t].amount)
            && NoRepeats(r.removed) && |r.removed| == Sum(s.threads, ToConsume)
            && (Sum(s.threads, ToConsume) == Sum(s.threads, ToProduce) ==> r.removed == r.inserted)
  {
    var r := Run(s, choices).value;
    RunInv(s, choices);
    RunCounts(s, choices);
    ItemsOnce(s, choices);
    forall t: nat | t < |s.threads|
      ensures |r.threads| == |s.threads| && r.threads[t].role == s.threads[t].role && r.threads[t].amount == s.threads[t].amount
    {
      RunSame(s, choices, t);
    }
    assert r.removed == r.inserted[..|r.removed|];
    hide Run, Sum, InOrder;
    forall t | 0 <= t < |r.threads| ensures r.threads[t].pc == WAIT && r.threads[t].done == r.threads[t].amount { }
    SumSame(r.threads, Produced, ToProduce);
    SumSame(r.threads, Consumed, ToConsume);
  }

  // ----- Termination and deadlock -----

  lemma StepCounts(s: State, t: nat)
    requires Inv(s) && t < |s.threads| && Next(s, t).Some?
    ensures var s' := Next(s, t).value;
            && |s'.buffer| == |s.buffer| && |s'.threads| == |s.threads|
            && Sum(s'.threads, StepsLeft) == Sum(s.threads, StepsLeft) - 1
            && Sum(s'.threads, ToProduce) == Sum(s.threads, ToProduce)
            && Sum(s'.threads, ToConsume) == Sum(s.threads, ToConsume)
  {
    hide Balanced, InOrder, Sum;
    var th' := Next(s, t).value.threads[t];
    assert Next(s, t).value.threads == s.threads[t := th'];
    SumUpdate(s.threads, StepsLeft, t, th');
    SumUpdate(s.threads, ToProduce, t, th');
    SumUpdate(s.threads, ToConsume, t, th');
  }

  /** Each step uses up one of the steps left, and the work asked for never changes. */
  lemma {:induction false} RunCounts(s: State, choices: seq<nat>)
    requires Initial(s) && Run(s, choices).Some?
    ensures var r := Run(s, choices).value;
            && |r.buffer| == |s.buffer| && |r.threads| == |s.threads|
            && Sum(r.threads, StepsLeft) == Sum(s.threads, StepsLeft) - |choices|
            && Sum(r.threads, ToProduce) == Sum(s.threads, ToProduce)
            && Sum(r.threads, ToConsume) == Sum(s.threads, ToConsume)
  {
    if choices != [] {
      var n := |choices| - 1;
      RunCounts(s, choices[..n]);
      RunInv(s, choices[..n]);
      StepCounts(Run(s, choices[..n]).value, choices[n]);
    }
  }

  lemma {:induction false} SixEach(ths: seq<Thread>)
    requires forall t :: 0 <= t < |ths| ==> ths[t].done == 0 && ths[t].pc == WAIT
    ensures Sum(ths, StepsLeft) == 6 * (Sum(ths, ToProduce) + Sum(ths, ToConsume))
  {
    if ths != [] { SixEach(ths[..|ths| - 1]); }
  }

  lemma {:induction false} StepsLeftNonNegative(ths: seq<Thread>)
    requires forall t :: 0 <= t < |ths| ==> StepsLeft(ths[t]) >= 0
    ensures Sum(ths, StepsLeft) >= 0
  {
    if ths != [] { StepsLeftNonNegative(ths[..|ths| - 1]); }
  }

  /** No run is longer than six steps per item. */
  lemma RunBounded(s: State, choices: seq<nat>)
    requires Initial(s) && Run(s, choices).Some?
    ensures |choices| <= 6 * (Sum(s.threads, ToProduce) + Sum(s.threads, ToConsume))
  {
    RunCounts(s, choices);
    RunInv(s, choices);
    StepsLeftNonNegative(Run(s, choices).value.threads);
    SixEach(s.threads);
  }

  /** Without progress, all threads wait on a semaphore or are finished. */
  lemma StuckAtWait(s: State, t: nat)
    requires Inv(s) && Stuck(s) && t < |s.threads|
    ensures s.threads[t].pc == WAIT
    ensures !Over(s.threads[t]) ==> if s.threads[t].role == Producer then s.empty == 0 else s.full == 0
  {
    hide Balanced, Sum;
    if s.holder.Some? {
      var h := s.holder.value;
      var moved := Next(s, h);
    }
    assert Next(s, t).None?;
  }

  lemma StuckCounts(s: State)
    requires Inv(s) && Stuck(s)
    ensures s.full == |s.inserted| - |s.removed| && s.empty == |s.buffer| - s.full
    ensures |s.inserted| <= Sum(s.threads, ToProduce) && |s.removed| <= Sum(s.threads, ToConsume)
    ensures (exists t :: 0 <= t < |s.threads| && s.threads[t].role == Producer && !Over(s.threads[t])) <==> |s.inserted| < Sum(s.threads, ToProduce)
    ensures (exists t :: 0 <= t < |s.threads| && s.threads[t].role == Consumer && !Over(s.threads[t])) <==> |s.removed| < Sum(s.threads, ToConsume)
  {
    forall t | 0 <= t < |s.threads| ensures s.threads[t].pc == WAIT { StuckAtWait(s, t); }
    hide Sum, Stuck, InOrder, Over;
    AllZero(s.threads, Filling);
    AllZero(s.threads, Taking);
    AllZero(s.threads, Claiming);
    AllZero(s.threads, Freeing);
    ProducersLeft(s.threads);
    ConsumersLeft(s.threads);
  }

  /** Between rounds, what is left to produce tells whether a producer is left. */
  lemma ProducersLeft(ths: seq<Thread>)
    requires forall t :: 0 <= t < |ths| ==> ths[t].pc == WAIT && ths[t].done <= ths[t].amount
    ensures Sum(ths, Produced) <= Sum(ths, ToProduce)
    ensures (exists t :: 0 <= t < |ths| && ths[t].role == Producer && !Over(ths[t])) <==> Sum(ths, Produced) < Sum(ths, ToProduce)
  {
    hide Sum;
    SumLess(ths, Produced, ToProduce);
    if t :| 0 <= t < |ths| && ths[t].role == Producer && !Over(ths[t]) {
      assert Produced(ths[t]) < ToProduce(ths[t]);
    } else {
      SumSame(ths, Produced, ToProduce);
    }
  }

  lemma ConsumersLeft(ths: seq<Thread>)
    requires forall t :: 0 <= t < |ths| ==> ths[t].pc == WAIT && ths[t].done <= ths[t].amount
    ensures Sum(ths, Consumed) <= Sum(ths, ToConsume)
    ensures (exists t :: 0 <= t < |ths| && ths[t].role == Consumer && !Over(ths[t])) <==> Sum(ths, Consumed) < Sum(ths, ToConsume)
  {
    hide Sum;
    SumLess(ths, Consumed, ToConsume);
    if t :| 0 <= t < |ths| && ths[t].role == Consumer && !Over(ths[t]) {
      assert Consumed(ths[t]) < ToConsume(ths[t]);
    } else {
      SumSame(ths, Consumed, ToConsume);
    }
  }

  /** What is produced suffices, and what is left over fits in the buffer. */
  ghost predicate WorkFits(s: State) {
    Sum(s.threads, ToConsume) <= Sum(s.threads, ToProduce) <= Sum(s.threads, ToConsume) + |s.buffer|
  }

  /** A state without progress is the end of all threads exactly when the work fits. */
  lemma StuckIsFinishedIff(s: State)
    requires Inv(s) && Stuck(s)
    ensures Finished(s) <==> WorkFits(s)
  {
    hide Sum, Stuck, InOrder, Balanced;
    StuckCounts(s);
    forall t: nat | t < |s.threads| && !Over(s.threads[t])
      ensures if s.threads[t].role == Producer then s.empty == 0 else s.full == 0
    {
      StuckAtWait(s, t);
    }
    if t :| 0 <= t < |s.threads| && !Over(s.threads[t]) {
      assert s.threads[t].role == Producer || s.threads[t].role == Consumer;
    } else {
      assert !exists t :: 0 <= t < |s.threads| && s.threads[t].role == Producer && !Over(s.threads[t]);
      assert !exists t :: 0 <= t < |s.threads| && s.threads[t].role == Consumer && !Over(s.threads[t]);
    }
  }

  /** Every run can be continued until no thread can step. */
  lemma {:induction false} RunToStuck(s: State, choices: seq<nat>) returns (all: seq<nat>)
    requires Initial(s) && Run(s, choices).Some?
    ensures Run(s, all).Some? && |Run(s, all).value.buffer| > 0 && Stuck(Run(s, all).value)
    decreases 6 * (Sum(s.threads, ToProduce) + Sum(s.threads, ToConsume)) - |choices|
  {
    RunInv(s, choices);
    RunBounded(s, choices);
    var r := Run(s, choices).value;
    if Stuck(r) {
      all := choices;
    } else {
      var t: nat :| t < |r.threads| && Next(r, t).Some?;
      assert (choices + [t])[..|choices|] == choices;
      RunBounded(s, choices + [t]);
      all := RunToStuck(s, choices + [t]);
    }
  }

  ghost predicate EndsFinished(s: State)
    requires |s.buffer| > 0
  {
    forall choices :: Run(s, choices).Some? && |Run(s, choices).value.buffer| > 0 && Stuck(Run(s, choices).value) ==>
      Finished(Run(s, choices).value)
  }

  /** Every maximal run ends with all threads finished exactly when C <= P <= C + BufferSize. */
  lemma TerminationIff(s: State)
    requires Initial(s)
    ensures EndsFinished(s) <==> WorkFits(s)
  {
    forall choices | Run(s, choices).Some? && |Run(s, choices).value.buffer| > 0 && Stuck(Run(s, choices).value)
      ensures Finished(Run(s, choices).value) <==> WorkFits(s)
    {
      RunInv(s, choices);
      RunCounts(s, choices);
      StuckIsFinishedIff(Run(s, choices).value);
    }
    var all := RunToStuck(s, []);
    assert Finished(Run(s, all).value) <==> WorkFits(s);
  }

  // ----- The threads started by main -----

  function Starts(producers: nat, produced: nat, consumers: nat, consumed: nat, buffer: seq<Item>): State {
    State(seq(producers, _ => Thread(Producer, produced, 0, WAIT)) + seq(consumers, _ => Thread(Consumer, consumed, 0, WAIT)),
          buffer, 0, 0, |buffer|, 0, None, [], [])
  }

  lemma {:induction false} Alike(n: nat, th: Thread, f: Thread -> int)
    ensures Sum(seq(n, _ => th), f) == n * f(th)
  {
    if n > 0 {
      assert seq(n, _ => th)[..n - 1] == seq(n - 1, _ => th);
      Alike(n - 1, th, f);
      assert n * f(th) == (n - 1) * f(th) + f(th);
    }
  }

  lemma {:induction false} SumConcat(a: seq<Thread>, b: seq<Thread>, f: Thread -> int)
    ensures Sum(a + b, f) == Sum(a, f) + Sum(b, f)
  {
    if b == [] {
      assert a + b == a;
    } else {
      var n := |b| - 1;
      assert (a + b)[..|a + b| - 1] == a + b[..n];
      SumConcat(a, b[..n], f);
    }
  }

  /** With equal shares, the example finishes in every interleaving exactly under this arithmetic condition. */
  lemma MainFinishesIff(producers: nat, produced: nat, consumers: nat, consumed: nat, buffer: seq<Item>)
    requires |buffer| > 0
    ensures EndsFinished(Starts(producers, produced, consumers, consumed, buffer)) <==>
            consumers * consumed <= producers * produced <= consumers * consumed + |buffer|
  {
    var s := Starts(producers, produced, consumers, consumed, buffer);
    var p, c := Thread(Producer, produced, 0, WAIT), Thread(Consumer, consumed, 0, WAIT);
    var a, b := seq(producers, _ => p), seq(consumers, _ => c);
    SumConcat(a, b, ToProduce);
    SumConcat(a, b, ToConsume);
    Alike(producers, p, ToProduce);
    Alike(producers, p, ToConsume);
    Alike(consumers, c, ToProduce);
    Alike(consumers, c, ToConsume);
    TerminationIff(s);
  }
}
