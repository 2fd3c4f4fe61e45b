/** The text buffer and index stacks of the DAX processor. */
module TextBuffers {

  const StackSize: nat := 1000000
  const Nul: char := 0 as char

  // ----- Stack discipline -----

  /** The characters in use, and the index stack: for each pushed buffer, a tag and where its text starts. */
  datatype Stacks = Stacks(text: seq<char>, index: seq<nat>)

  datatype Op = Put(c: char) | Push(tag: nat) | Pop

  ghost predicate Sound(s: Stacks) {
    && |s.index| % 2 == 1
    && (forall i :: 1 <= i < |s.index| && i % 2 == 0 ==> 1 <= s.index[i] <= |s.text|)
    && forall i, j :: 1 <= i < j < |s.index| && i % 2 == 0 && j % 2 == 0 ==> s.index[i] <= s.index[j]
  }

  function Apply(s: Stacks, op: Op): Stacks {
    match op
    case Put(c) => s.(text := s.text + [c])
    case Push(tag) => s.(index := s.index + [tag, |s.text|])
    case Pop =>
      var n := |s.index|;
      if n < 2 then s else Stacks(if s.index[n - 1] <= |s.text| then s.text[..s.index[n - 1]] else s.text, s.index[..n - 2])
  }

  function Run(s: Stacks, ops: seq<Op>): Stacks {
    if ops == [] then s else Apply(Run(s, ops[..|ops| - 1]), ops[|ops| - 1])
  }

  /** Pushes not yet popped. */
  function Depth(ops: seq<Op>): int {
    if ops == [] then 0
    else Depth(ops[..|ops| - 1]) + match ops[|ops| - 1] case Put(_) => 0 case Push(_) => 1 case Pop => -1
  }

  /** No pop without its push. */
  ghost predicate Nested(ops: seq<Op>) { forall n :: 0 <= n <= |ops| ==> Depth(ops[..n]) >= 0 }

  /** `t` is `s` with `d` more buffers, all starting after the text of `s`. */
  ghost predicate Extends(s: Stacks, t: Stacks, d: int) {
    && d >= 0 && s.text <= t.text && |t.index| == |s.index| + 2 * d && s.index <= t.index
    && (forall i :: 0 <= i < d ==> |s.text| <= t.index[|s.index| + 2 * i + 1] <= |t.text|)
    && (forall i, j :: 0 <= i < j < d ==> t.index[|s.index| + 2 * i + 1] <= t.index[|s.index| + 2 * j + 1])
  }

  lemma ExtendsStep(s: Stacks, t: Stacks, d: int, op: Op)
    requires Extends(s, t, d) && s.index != [] && (op == Pop ==> d > 0)
    ensures Extends(s, Apply(t, op), d + match op case Put(_) => 0 case Push(_) => 1 case Pop => -1)
  {
    var u := Apply(t, op);
    match op {
      case Put(c) =>
      case Push(tag) =>
        assert u.index[|s.index| + 2 * d + 1] == |t.text|;
        forall i | 0 <= i < d ensures u.index[|s.index| + 2 * i + 1] == t.index[|s.index| + 2 * i + 1] { }
      case Pop =>
        assert t.index[|t.index| - 1] == t.index[|s.index| + 2 * (d - 1) + 1];
        forall i | 0 <= i < d - 1 ensures u.index[|s.index| + 2 * i + 1] == t.index[|s.index| + 2 * i + 1] { }
    }
  }

  lemma {:induction false} NestedExtends(s: Stacks, ops: seq<Op>)
    requires Nested(ops) && s.index != []
    ensures Extends(s, Run(s, ops), Depth(ops))
  {
    if ops != [] {
      var n := |ops| - 1;
      var front := ops[..n];
      forall k | 0 <= k <= n ensures Depth(front[..k]) >= 0 { assert front[..k] == ops[..k]; }
      NestedExtends(s, front);
      assert ops[..|ops|] == ops && Depth(ops) >= 0;
      ExtendsStep(s, Run(s, front), Depth(front), ops[n]);
    }
  }

  /** While a buffer is open, nothing written before it changes. */
  lemma NothingRewritten(s: Stacks, ops: seq<Op>)
    requires Nested(ops) && s.index != []
    ensures s.text <= Run(s, ops).text && s.index <= Run(s, ops).index
  {
    NestedExtends(s, ops);
  }

  /** A pop restores what its push found. */
  lemma PopRestores(s: Stacks, tag: nat, ops: seq<Op>)
    requires s.index != [] && Nested(ops) && Depth(ops) == 0
    ensures Run(s, [Push(tag)] + ops + [Pop]) == s
  {
    var t := Apply(s, Push(tag));
    assert [Push(tag)][..0] == [];
    assert Run(s, [Push(tag)]) == t;
    NestedExtends(t, ops);
    RunConcat(s, [Push(tag)], ops);
    var u := Run(t, ops);
    assert ([Push(tag)] + ops + [Pop])[..|ops| + 1] == [Push(tag)] + ops;
    assert u.index == t.index;
    assert t.index[..|s.index|] == s.index;
  }

  lemma {:induction false} RunConcat(s: Stacks, a: seq<Op>, b: seq<Op>)
    ensures Run(s, a + b) == Run(Run(s, a), b)
  {
    if b == [] {
      assert a + b == a;
    } else {
      assert (a + b)[..|a + b| - 1] == a + b[..|b| - 1];
      RunConcat(s, a, b[..|b| - 1]);
    }
  }

  // ----- The buffers -----

  /** A string and its final null character at `p`. */
  ghost predicate StringAt(text: seq<char>, p: nat, v: string) {
    p + |v| < |text| && text[p..p + |v|] == v && text[p + |v|] == Nul
  }

  lemma StringKept(a: seq<char>, b: seq<char>, p: nat, v: string)
    requires StringAt(a, p, v) && a <= b
    ensures StringAt(b, p, v)
  {
    assert b[p..p + |v|] == a[p..p + |v|];
  }

  /** What a reader of null-terminated strings sees of `v`. */
  function CString(v: string): string { if v == [] || v[0] == Nul then [] else [v[0]] + CString(v[1..]) }

  /** The longest prefix without a null character. */
  lemma {:induction false} CStringIff(v: string, w: string)
    ensures w == CString(v) <==> w <= v && 0 as char !in w && (|w| < |v| ==> v[|w|] == 0 as char)
  {
    if v != [] && v[0] != Nul {
      if w == [] {
      } else {
        CStringIff(v[1..], w[1..]);
        assert w == [w[0]] + w[1..];
        assert w <= v <==> w[0] == v[0] && w[1..] <= v[1..];
      }
    }
  }

  class TextBuffers {
    var chars: array<char>
    var bnext: nat
    var index: seq<nat>

    ghost predicate Valid() reads this, chars {
      1 <= bnext <= chars.Length && Sound(Contents())
    }

    ghost function Contents(): Stacks
      requires bnext <= chars.Length
      reads this, chars
    {
      Stacks(chars[..bnext], index)
    }

    constructor ()
      ensures Valid() && fresh(chars) && Contents() == Stacks([Nul], [0])
    {
      var b := new char[StackSize];
      b[0] := Nul;
      chars, bnext, index := b, 1, [0];
      new;
      assert chars[..1] == [Nul];
    }

    /** Makes room for one more character. */
    method CheckLimit()
      requires Valid()
      modifies this`chars
      ensures Valid() && (chars == old(chars) || fresh(chars)) && Contents() == old(Contents()) && bnext < chars.Length
    {
      if bnext >= chars.Length {
        var b := new char[chars.Length + StackSize + 2];
        forall k | 0 <= k < chars.Length { b[k] := chars[k]; }
        chars := b;
      }
    }

    method PutChar(c: char)
      requires Valid()
      modifies this`chars, this`bnext, chars
      ensures Valid() && (chars == old(chars) || fresh(chars)) && Contents() == Apply(old(Contents()), Put(c))
    {
      CheckLimit();
      chars[bnext] := c;
      bnext := bnext + 1;
    }

    /** Stores a string with its null character at the current end. */
    method PutString(v: string) returns (at: nat)
      requires Valid()
      modifies this`chars, this`bnext, chars
      ensures Valid() && (chars == old(chars) || fresh(chars)) && index == old(index)
      ensures at == old(bnext) && chars[..bnext] == old(chars[..bnext]) + v + [Nul] && StringAt(chars[..bnext], at, v)
    {
      at := bnext;
      var i := 0;
      while i < |v|
        invariant i <= |v| && Valid() && (chars == old(chars) || fresh(chars)) && index == old(index)
        invariant chars[..bnext] == old(chars[..bnext]) + v[..i]
      {
        PutChar(v[i]);
        i := i + 1;
      }
      PutChar(Nul);
      assert v[..|v|] == v;
    }

    method PushBuffer(tag: nat)
      requires Valid()
      modifies this`index
      ensures Valid() && Contents() == Apply(old(Contents()), Push(tag))
    {
      index := index + [tag, bnext];
    }

    method PopBuffer() returns (tag: nat)
      requires Valid() && |index| >= 2
      modifies this`index, this`bnext
      ensures Valid() && Contents() == Apply(old(Contents()), Pop) && tag == old(index)[old(|index|) - 2]
    {
      var n := |index|;
      tag := index[n - 2];
      bnext := index[n - 1];
      index := index[..n - 2];
    }

    /** Reads the string at `p`, up to its null character. */
    method ReadString(p: nat, ghost v: string) returns (s: string)
      requires Valid() && StringAt(chars[..bnext], p, v)
      ensures s == CString(v)
    {
      s := [];
      var i := p;
      while chars[i] != Nul
        invariant p <= i <= p + |v|
        invariant s + CString(v[i - p..]) == CString(v)
        decreases p + |v| - i
      {
        assert chars[i] == chars[..bnext][p..p + |v|][i - p];
        s := s + [chars[i]];
        i := i + 1;
      }
    }
  }
}
