/** Renaming the addresses of a text by order of appearance. */
module Pointers {

  predicate IsHex(c: char) { '0' <= c <= '9' || 'a' <= c <= 'f' }

  // ----- Literals and addresses of a text -----

  /** An address starts at `i`. */
  predicate StartsAt(t: string, i: nat) { i + 2 < |t| && t[i] == '0' && t[i + 1] == 'x' && IsHex(t[i + 2]) }

  /** The addresses of a text, and what stands before, between and after them. */
  datatype Parts = Parts(lits: seq<string>, addrs: seq<string>)

  function First(t: string, o: nat): (i: nat)
    requires o <= |t|
    ensures o <= i <= |t| && (i < |t| ==> StartsAt(t, i)) && forall j :: o <= j < i ==> !StartsAt(t, j)
    decreases |t| - o
  {
    if o == |t| || StartsAt(t, o) then o else First(t, o + 1)
  }

  function HexEnd(t: string, o: nat): (j: nat)
    requires o <= |t|
    ensures o <= j <= |t| && (j < |t| ==> !IsHex(t[j])) && forall k :: o <= k < j ==> IsHex(t[k])
    decreases |t| - o
  {
    if o < |t| && IsHex(t[o]) then HexEnd(t, o + 1) else o
  }

  function Split(t: string, o: nat): (p: Parts)
    requires o <= |t|
    ensures |p.lits| == |p.addrs| + 1
    decreases |t| - o
  {
    var i := First(t, o);
    if i == |t| then Parts([t[o..]], [])
    else
      var j := HexEnd(t, i + 2);
      var rest := Split(t, j);
      Parts([t[o..i]] + rest.lits, [t[i..j]] + rest.addrs)
  }

  function Joined(p: Parts): string
    requires |p.lits| == |p.addrs| + 1
    decreases |p.addrs|
  {
    if p.addrs == [] then p.lits[0] else p.lits[0] + p.addrs[0] + Joined(Parts(p.lits[1..], p.addrs[1..]))
  }

  predicate IsAddress(s: string) { |s| > 2 && s[0] == '0' && s[1] == 'x' && forall i :: 2 <= i < |s| ==> IsHex(s[i]) }

  ghost predicate Clean(s: string) { forall i :: !StartsAt(s, i) }

  /** No address is left in a literal, and addresses are nothing else. */
  lemma {:induction false} SplitShape(t: string, o: nat, n: nat)
    requires o <= |t| && n <= |Split(t, o).addrs|
    ensures Clean(Split(t, o).lits[n])
    ensures n < |Split(t, o).addrs| ==> IsAddress(Split(t, o).addrs[n])
    decreases |t| - o
  {
    hide Split, First, HexEnd, Clean, IsAddress;
    var i := First(t, o);
    if i < |t| {
      SplitAt(t, o);
      var j := HexEnd(t, i + 2);
      if n > 0 {
        SplitShape(t, j, n - 1);
        var p, rest := Split(t, o), Split(t, j);
        assert p.lits[n] == p.lits[1..][n - 1] && (n < |p.addrs| ==> p.addrs[n] == p.addrs[1..][n - 1]);
      } else {
        CleanLiteral(t, o, i);
        CleanAddress(t, i, j);
      }
    } else {
      SplitEnd(t, o);
      CleanLiteral(t, o, i);
      assert t[o..i] == t[o..];
    }
  }

  lemma CleanLiteral(t: string, o: nat, i: nat)
    requires o <= i <= |t| && forall j :: o <= j < i ==> !StartsAt(t, j)
    ensures Clean(t[o..i])
  {
    forall k: nat ensures !StartsAt(t[o..i], k) {
      if StartsAt(t[o..i], k) { assert StartsAt(t, o + k); }
    }
  }

  lemma CleanAddress(t: string, i: nat, j: nat)
    requires StartsAt(t, i) && i + 2 < j <= |t| && forall k :: i + 2 <= k < j ==> IsHex(t[k])
    ensures IsAddress(t[i..j])
  {
  }

  lemma {:induction false} SplitJoins(t: string, o: nat)
    requires o <= |t|
    ensures Joined(Split(t, o)) == t[o..]
    decreases |t| - o
  {
    var i := First(t, o);
    if i == |t| {
      SplitEnd(t, o);
    } else {
      var j := HexEnd(t, i + 2);
      hide First, HexEnd, StartsAt, Split;
      SplitAt(t, o);
      SplitJoins(t, j);
      JoinedAt(Split(t, o), Split(t, j));
      hide Joined;
      ThreeParts(t, o, i, j);
    }
  }

  lemma SplitAt(t: string, o: nat)
    requires o <= |t| && First(t, o) < |t|
    ensures var i := First(t, o); var j := HexEnd(t, i + 2); var p, rest := Split(t, o), Split(t, j);
            && o <= i < j <= |t| && p.lits[0] == t[o..i] && p.addrs != [] && p.addrs[0] == t[i..j]
            && p.lits[1..] == rest.lits && p.addrs[1..] == rest.addrs
  {
  }

  lemma JoinedAt(p: Parts, rest: Parts)
    requires |p.lits| == |p.addrs| + 1 && p.addrs != [] && p.lits[1..] == rest.lits && p.addrs[1..] == rest.addrs
    ensures Joined(p) == p.lits[0] + p.addrs[0] + Joined(rest)
  {
  }

  lemma ThreeParts(t: string, o: nat, i: nat, j: nat)
    requires o <= i <= j <= |t|
    ensures t[o..i] + t[i..j] + t[j..] == t[o..]
  {
  }

  // ----- Names -----

  function Digits(n: nat): string {
    if n < 10 then [('0' as int + n) as char] else Digits(n / 10) + [('0' as int + n % 10) as char]
  }

  function Zeros(n: nat): string { if n == 0 then "" else "0" + Zeros(n - 1) }

  /** The format "0X%07d". */
  function Name(n: nat): string {
    "0X" + (if |Digits(n)| < 7 then Zeros(7 - |Digits(n)|) else "") + Digits(n)
  }

  function Value(s: string): int { if s == "" then 0 else 10 * Value(s[..|s| - 1]) + (s[|s| - 1] as int - '0' as int) }

  lemma {:induction false} DigitsValue(z: nat, n: nat)
    ensures Value(Zeros(z) + Digits(n)) == n
  {
    var s := Zeros(z) + Digits(n);
    if n < 10 {
      assert s[..|s| - 1] == Zeros(z);
      ZerosValue(z);
    } else {
      assert s[..|s| - 1] == Zeros(z) + Digits(n / 10);
      DigitsValue(z, n / 10);
    }
  }

  lemma {:induction false} ZerosValue(z: nat)
    ensures Value(Zeros(z)) == 0
  {
    if z > 0 {
      ZerosEnd(z);
      ZerosValue(z - 1);
    }
  }

  lemma {:induction false} ZerosEnd(z: nat)
    requires z > 0
    ensures Zeros(z) == Zeros(z - 1) + "0"
  {
    if z > 1 { ZerosEnd(z - 1); }
  }

  lemma NamesDiffer(m: nat, n: nat)
    requires Name(m) == Name(n)
    ensures m == n
  {
    NameValue(m);
    NameValue(n);
    hide Name;
  }

  lemma NameValue(n: nat)
    ensures |Name(n)| >= 2 && Value(Name(n)[2..]) == n
  {
    var z := if |Digits(n)| < 7 then 7 - |Digits(n)| else 0;
    DigitsValue(z, n);
    hide Digits, Zeros, Value;
    NoZeros();
    assert Name(n)[2..] == Zeros(z) + Digits(n);
  }

  lemma NoZeros()
    ensures Zeros(0) == ""
  {
  }

  // ----- Order of appearance -----

  /** The different elements, by first appearance. */
  function Distinct(a: seq<string>): (d: seq<string>)
    ensures forall x :: x in a <==> x in d
    ensures forall i, j :: 0 <= i < j < |d| ==> d[i] != d[j]
  {
    if a == [] then []
    else
      var d := Distinct(a[..|a| - 1]);
      assert forall x :: x in a <==> x in a[..|a| - 1] || x == a[|a| - 1];
      if a[|a| - 1] in d then d else d + [a[|a| - 1]]
  }

  function Index(d: seq<string>, x: string): (i: nat)
    requires x in d
    ensures i < |d| && d[i] == x
  {
    if d[0] == x then 0 else 1 + Index(d[1..], x)
  }

  /** What is printed, piece by piece. */
  function Printed(p: Parts): (out: seq<string>)
    requires |p.lits| == |p.addrs| + 1
  {
    PrintedUpTo(p, |p.addrs|) + [p.lits[|p.addrs|]]
  }

  function PrintedUpTo(p: Parts, k: nat): (out: seq<string>)
    requires |p.lits| == |p.addrs| + 1 && k <= |p.addrs|
    ensures |out| == 2 * k
  {
    if k == 0 then [] else PrintedUpTo(p, k - 1) + [p.lits[k - 1], NameOf(p, k - 1)]
  }

  function NameOf(p: Parts, i: nat): string
    requires i < |p.addrs|
  {
    Name(Index(Distinct(p.addrs), p.addrs[i]))
  }

  // ----- Canonical form -----

  /** `f` renames `a` to `b`, different elements to different ones. */
  ghost predicate Renames(f: map<string, string>, a: seq<string>, b: seq<string>) {
    && |a| == |b| && (forall i :: 0 <= i < |a| ==> a[i] in f && f[a[i]] == b[i])
    && forall x, y :: x in f && y in f && f[x] == f[y] ==> x == y
  }

  function Mapped(f: map<string, string>, a: seq<string>): seq<string>
    requires forall x :: x in a ==> x in f
  {
    seq(|a|, i requires 0 <= i < |a| => f[a[i]])
  }

  lemma {:induction false} DistinctMapped(f: map<string, string>, a: seq<string>, b: seq<string>)
    requires Renames(f, a, b)
    ensures forall x :: x in Distinct(a) ==> x in f
    ensures Distinct(b) == Mapped(f, Distinct(a))
  {
    if a != [] {
      var n := |a| - 1;
      DistinctMapped(f, a[..n], b[..n]);
      var d, e := Distinct(a[..n]), Distinct(b[..n]);
      assert a[n] in d <==> b[n] in e by {
        if a[n] in d { assert e[Index(d, a[n])] == b[n]; }
        if b[n] in e { assert f[d[Index(e, b[n])]] == b[n]; }
      }
    } else {
      assert b == [];
    }
  }

  lemma IndexUnique(d: seq<string>, x: string, i: nat)
    requires (forall j, k :: 0 <= j < k < |d| ==> d[j] != d[k]) && i < |d| && d[i] == x
    ensures Index(d, x) == i
  {
  }

  /** A renaming does not change the names given. */
  lemma RenamedSame(f: map<string, string>, p: Parts, q: Parts, i: nat)
    requires Renames(f, p.addrs, q.addrs) && i < |p.addrs|
    ensures NameOf(p, i) == NameOf(q, i)
  {
    DistinctMapped(f, p.addrs, q.addrs);
    var k := Index(Distinct(p.addrs), p.addrs[i]);
    assert Distinct(q.addrs)[k] == q.addrs[i];
    IndexUnique(Distinct(q.addrs), q.addrs[i], k);
  }

  /** The renaming that equal names reveal. */
  lemma NamesReveal(p: Parts, q: Parts) returns (f: map<string, string>)
    requires |p.addrs| == |q.addrs| && forall i :: 0 <= i < |p.addrs| ==> NameOf(p, i) == NameOf(q, i)
    ensures Renames(f, p.addrs, q.addrs)
  {
    var a, b := p.addrs, q.addrs;
    forall i, j | 0 <= i < |a| && 0 <= j < |a| ensures a[i] == a[j] <==> b[i] == b[j] {
      assert NameOf(p, i) == NameOf(q, i) && NameOf(p, j) == NameOf(q, j);
      NamesDiffer(Index(Distinct(a), a[i]), Index(Distinct(b), b[i]));
      NamesDiffer(Index(Distinct(a), a[j]), Index(Distinct(b), b[j]));
    }
    f := map x | x in a :: b[Index(a, x)];
    forall x, y | x in f && y in f && f[x] == f[y] ensures x == y { assert a[Index(a, x)] == x && a[Index(a, y)] == y; }
    forall i | 0 <= i < |a| ensures a[i] in f && f[a[i]] == b[i] { assert a[Index(a, a[i])] == a[i]; }
  }

  /** Two texts are printed alike exactly when their literals agree and a renaming maps the addresses of the one to
      those of the other. */
  lemma CanonicalForm(p: Parts, q: Parts)
    requires |p.lits| == |p.addrs| + 1 && |q.lits| == |q.addrs| + 1
    ensures Printed(p) == Printed(q) <==> p.lits == q.lits && exists f :: Renames(f, p.addrs, q.addrs)
  {
    if Printed(p) == Printed(q) {
      PrintedSame(p, q);
      var f := NamesReveal(p, q);
    }
    if p.lits == q.lits && exists f :: Renames(f, p.addrs, q.addrs) {
      var f :| Renames(f, p.addrs, q.addrs);
      forall i | 0 <= i < |p.addrs| ensures NameOf(p, i) == NameOf(q, i) { RenamedSame(f, p, q, i); }
      SamePrinted(p, q);
    }
  }

  lemma PrintedSame(p: Parts, q: Parts)
    requires |p.lits| == |p.addrs| + 1 && |q.lits| == |q.addrs| + 1 && Printed(p) == Printed(q)
    ensures p.lits == q.lits && forall i :: 0 <= i < |p.addrs| ==> NameOf(p, i) == NameOf(q, i)
  {
    hide NameOf;
    var n := |p.addrs|;
    assert |Printed(p)| == 2 * n + 1 && |Printed(q)| == 2 * |q.addrs| + 1;
    assert PrintedUpTo(p, n) == Printed(p)[..2 * n] == PrintedUpTo(q, n);
    assert p.lits[n] == Printed(p)[2 * n] == q.lits[n];
    SameUpTo(p, q, n);
  }

  lemma {:induction false} SameUpTo(p: Parts, q: Parts, k: nat)
    requires |p.lits| == |p.addrs| + 1 && |q.lits| == |q.addrs| + 1 && k <= |p.addrs| && k <= |q.addrs|
    ensures PrintedUpTo(p, k) == PrintedUpTo(q, k) <==>
            forall i :: 0 <= i < k ==> p.lits[i] == q.lits[i] && NameOf(p, i) == NameOf(q, i)
    decreases k
  {
    hide NameOf;
    if k > 0 {
      SameUpTo(p, q, k - 1);
      SplitTwo(PrintedUpTo(p, k - 1), PrintedUpTo(q, k - 1), p.lits[k - 1], NameOf(p, k - 1), q.lits[k - 1], NameOf(q, k - 1));
    }
  }

  lemma SplitTwo(a: seq<string>, b: seq<string>, x: string, y: string, v: string, w: string)
    requires |a| == |b|
    ensures a + [x, y] == b + [v, w] <==> a == b && x == v && y == w
  {
    if a + [x, y] == b + [v, w] {
      assert a == (a + [x, y])[..|a|] == b;
      assert (a + [x, y])[|a|] == x && (a + [x, y])[|a| + 1] == y;
      assert (b + [v, w])[|a|] == v && (b + [v, w])[|a| + 1] == w;
    }
  }

  lemma SamePrinted(p: Parts, q: Parts)
    requires |p.lits| == |p.addrs| + 1 && |p.addrs| == |q.addrs| && p.lits == q.lits
    requires forall i :: 0 <= i < |p.addrs| ==> NameOf(p, i) == NameOf(q, i)
    ensures Printed(p) == Printed(q)
  {
    hide NameOf;
    SameUpTo(p, q, |p.addrs|);
  }

  /** The `k`-th different address, counted from zero, gets name `k`; the names announced start one later. */
  lemma NamesFromZero(p: Parts, i: nat, k: nat)
    requires i < |p.addrs| && k < |Distinct(p.addrs)| && p.addrs[i] == Distinct(p.addrs)[k]
    ensures NameOf(p, i) == Name(k) && NameOf(p, i) != Name(k + 1)
  {
    IndexUnique(Distinct(p.addrs), p.addrs[i], k);
    hide Name;
    if Name(k) == Name(k + 1) { NamesDiffer(k, k + 1); }
  }

  // ----- The printed text -----

  predicate IsSpace(c: char) { c == ' ' || 9 as char <= c <= 13 as char }

  /** A blank goes before the next piece, unless this one ends with other white space. */
  predicate Soft(s: string) { s == "" || !IsSpace(s[|s| - 1]) || s[|s| - 1] == ' ' }

  function Gap(s: string): string { if Soft(s) then " " else "" }

  function Line(pieces: seq<string>): string {
    if pieces == [] then "" else if |pieces| == 1 then pieces[0] else pieces[0] + Gap(pieces[0]) + Line(pieces[1..])
  }

  lemma {:induction false} LineAppend(pieces: seq<string>, x: string)
    requires pieces != []
    ensures Line(pieces + [x]) == Line(pieces) + Gap(pieces[|pieces| - 1]) + x
  {
    if |pieces| > 1 {
      assert (pieces + [x])[1..] == pieces[1..] + [x];
      LineAppend(pieces[1..], x);
    } else {
      assert (pieces + [x])[1..] == [x];
    }
  }

  function PrintedText(p: Parts): string
    requires |p.lits| == |p.addrs| + 1
  {
    Line(Printed(p)) + "\n"
  }

  /** Literals and names in turn. */
  function Weave(lits: seq<string>, names: seq<string>): seq<string>
    requires |lits| == |names| + 1
    decreases |names|
  {
    if names == [] then [lits[0]] else [lits[0], names[0]] + Weave(lits[1..], names[1..])
  }

  function NamesOf(p: Parts): seq<string> { seq(|p.addrs|, i requires 0 <= i < |p.addrs| => NameOf(p, i)) }

  lemma {:induction false} WovenFrom(p: Parts, k: nat)
    requires |p.lits| == |p.addrs| + 1 && k <= |p.addrs|
    ensures PrintedUpTo(p, k) + Weave(p.lits[k..], NamesOf(p)[k..]) == Weave(p.lits, NamesOf(p))
  {
    hide NameOf;
    if k > 0 {
      WovenFrom(p, k - 1);
      var lits, names := p.lits[k - 1..], NamesOf(p)[k - 1..];
      assert lits[1..] == p.lits[k..] && names[1..] == NamesOf(p)[k..];
      assert Weave(lits, names) == [p.lits[k - 1], NameOf(p, k - 1)] + Weave(p.lits[k..], NamesOf(p)[k..]);
    } else {
      assert p.lits[0..] == p.lits && NamesOf(p)[0..] == NamesOf(p);
    }
  }

  lemma PrintedIsWoven(p: Parts)
    requires |p.lits| == |p.addrs| + 1
    ensures Printed(p) == Weave(p.lits, NamesOf(p))
  {
    var n := |p.addrs|;
    WovenFrom(p, n);
    assert NamesOf(p)[n..] == [] && p.lits[n..] == [p.lits[n]];
  }

  /** What a name looks like. */
  predicate NameShape(n: string) { |n| > 2 && n[0] == '0' && n[1] == 'X' && forall i :: 2 <= i < |n| ==> '0' <= n[i] <= '9' }

  lemma {:induction false} DigitsShape(n: nat)
    ensures |Digits(n)| > 0 && forall i :: 0 <= i < |Digits(n)| ==> '0' <= Digits(n)[i] <= '9'
  {
    if n >= 10 { DigitsShape(n / 10); }
  }

  lemma {:induction false} ZerosShape(n: nat)
    ensures |Zeros(n)| == n && forall i :: 0 <= i < n ==> Zeros(n)[i] == '0'
  {
    if n > 0 { ZerosShape(n - 1); }
  }

  lemma NameShaped(n: nat)
    ensures NameShape(Name(n))
  {
    DigitsShape(n);
    if |Digits(n)| < 7 { ZerosShape(7 - |Digits(n)|); }
  }

  function Text(lits: seq<string>, names: seq<string>): string
    requires |lits| == |names| + 1
  {
    Line(Weave(lits, names)) + "\n"
  }

  lemma TextStep(lits: seq<string>, names: seq<string>)
    requires |lits| == |names| + 1 && names != [] && NameShape(names[0])
    ensures Text(lits, names) == lits[0] + Gap(lits[0]) + names[0] + " " + Text(lits[1..], names[1..])
  {
    var rest := Weave(lits[1..], names[1..]);
    var all := [lits[0], names[0]] + rest;
    assert all[1..] == [names[0]] + rest && all[1..][1..] == rest;
    assert Soft(names[0]);
    assert Line(all) == lits[0] + Gap(lits[0]) + Line(all[1..]);
    assert Line(all[1..]) == names[0] + " " + Line(rest);
  }

  predicate HasMark(s: string, i: nat) { i + 1 < |s| && s[i] == '0' && s[i + 1] == 'X' }

  /** The text does not look like a name anywhere. */
  ghost predicate Unmarked(s: string) { forall i :: !HasMark(s, i) }

  lemma GapTells(a: string, b: string)
    requires a + Gap(a) == b + Gap(b)
    ensures a == b
  {
    var t := a + Gap(a);
    assert |t| > 0 && (t[|t| - 1] == ' ' <==> Soft(a)) && (t[|t| - 1] == ' ' <==> Soft(b));
    assert a == t[..|a|] && b == t[..|b|];
  }

  lemma NotMarkedBefore(l: string, name: string, r: string, i: nat)
    requires Unmarked(l) && NameShape(name) && i < |l + Gap(l)|
    ensures !HasMark(l + Gap(l) + name + r, i)
  {
    var t := l + Gap(l) + name + r;
    assert HasMark(t, i) && i + 1 < |l| ==> HasMark(l, i);
    assert t[|l + Gap(l)|] == '0';
    if Soft(l) { assert t[|l|] == ' '; }
  }

  lemma FirstMark(l: string, name: string, r: string)
    requires NameShape(name)
    ensures HasMark(l + Gap(l) + name + r, |l + Gap(l)|)
  {
    var t := l + Gap(l) + name + r;
    assert t[|l + Gap(l)|] == name[0] && t[|l + Gap(l)| + 1] == name[1];
  }

  lemma NameTells(a: string, b: string, r: string, s: string)
    requires NameShape(a) && NameShape(b) && a + " " + r == b + " " + s
    ensures a == b && r == s
  {
    var t := a + " " + r;
    assert t[|a|] == ' ' && t[|b|] == ' ';
    assert (forall i :: 2 <= i < |a| ==> t[i] == a[i]) && forall i :: 2 <= i < |b| ==> t[i] == b[i];
    assert a == t[..|a|] && b == t[..|b|] && r == t[|a| + 1..] && s == t[|b| + 1..];
  }

  lemma HeadsTell(l: string, n: string, r: string, m: string, o: string, s: string)
    requires Unmarked(l) && Unmarked(m) && NameShape(n) && NameShape(o) && l + Gap(l) + n + " " + r == m + Gap(m) + o + " " + s
    ensures l == m && n == o && r == s
  {
    var t := l + Gap(l) + n + (" " + r);
    var u := m + Gap(m) + o + (" " + s);
    assert t == l + Gap(l) + n + " " + r == m + Gap(m) + o + " " + s == u;
    var a, b := |l + Gap(l)|, |m + Gap(m)|;
    FirstMark(l, n, " " + r);
    FirstMark(m, o, " " + s);
    if a < b { NotMarkedBefore(m, o, " " + s, a); }
    if b < a { NotMarkedBefore(l, n, " " + r, b); }
    assert l + Gap(l) == t[..a] == u[..b] == m + Gap(m);
    GapTells(l, m);
    assert n + " " + r == t[a..] == u[b..] == o + " " + s;
    NameTells(n, o, r, s);
  }

  lemma EndTells(l: string, m: string, o: string, s: string)
    requires Unmarked(l) && NameShape(o)
    ensures l + "\n" != m + Gap(m) + o + " " + s
  {
    var t, u := l + "\n", m + Gap(m) + o + (" " + s);
    assert u == m + Gap(m) + o + " " + s;
    FirstMark(m, o, " " + s);
    assert t[|l|] == '\n';
    assert forall i :: HasMark(t, i) ==> HasMark(l, i);
  }

  /** Without literals that look like names, the text tells the pieces. */
  lemma {:induction false} TextTells(lits: seq<string>, names: seq<string>, lits': seq<string>, names': seq<string>)
    requires |lits| == |names| + 1 && |lits'| == |names'| + 1 && Text(lits, names) == Text(lits', names')
    requires (forall n :: n in names ==> NameShape(n)) && forall n :: n in names' ==> NameShape(n)
    requires (forall l :: l in lits ==> Unmarked(l)) && forall l :: l in lits' ==> Unmarked(l)
    ensures lits == lits' && names == names'
    decreases |names|
  {
    hide Unmarked, NameShape, Gap;
    assert lits[0] in lits && lits'[0] in lits';
    if names == [] && names' == [] {
      LastText(lits, names);
      LastText(lits', names');
      assert lits[0] == (lits[0] + "\n")[..|lits[0]|] && lits'[0] == (lits'[0] + "\n")[..|lits'[0]|];
    } else if names == [] {
      assert names'[0] in names';
      LastText(lits, names);
      TextStep(lits', names');
      EndTells(lits[0], lits'[0], names'[0], Text(lits'[1..], names'[1..]));
    } else if names' == [] {
      assert names[0] in names;
      LastText(lits', names');
      TextStep(lits, names);
      EndTells(lits'[0], lits[0], names[0], Text(lits[1..], names[1..]));
    } else {
      assert names[0] in names && names'[0] in names';
      TextStep(lits, names);
      TextStep(lits', names');
      HeadsTell(lits[0], names[0], Text(lits[1..], names[1..]), lits'[0], names'[0], Text(lits'[1..], names'[1..]));
      hide Text;
      TextTells(lits[1..], names[1..], lits'[1..], names'[1..]);
      assert lits == [lits[0]] + lits[1..] && lits' == [lits'[0]] + lits'[1..];
      assert names == [names[0]] + names[1..] && names' == [names'[0]] + names'[1..];
    }
  }

  lemma LastText(lits: seq<string>, names: seq<string>)
    requires |lits| == |names| + 1 && names == []
    ensures Text(lits, names) == lits[0] + "\n"
  {
  }

  /** As printed text, too, the output is a canonical form of the inputs whose literals do not look like names. */
  lemma CanonicalText(p: Parts, q: Parts)
    requires |p.lits| == |p.addrs| + 1 && |q.lits| == |q.addrs| + 1
    requires (forall l :: l in p.lits ==> Unmarked(l)) && forall l :: l in q.lits ==> Unmarked(l)
    ensures PrintedText(p) == PrintedText(q) <==> p.lits == q.lits && exists f :: Renames(f, p.addrs, q.addrs)
  {
    PrintedIsWoven(p);
    PrintedIsWoven(q);
    hide Unmarked, Renames, Line, Weave;
    CanonicalForm(p, q);
    if PrintedText(p) == PrintedText(q) {
      NamesShaped(p);
      NamesShaped(q);
      assert Text(p.lits, NamesOf(p)) == PrintedText(p) && Text(q.lits, NamesOf(q)) == PrintedText(q);
      TextTells(p.lits, NamesOf(p), q.lits, NamesOf(q));
    }
  }

  lemma NamesShaped(p: Parts)
    ensures forall n :: n in NamesOf(p) ==> NameShape(n)
  {
    forall i | 0 <= i < |p.addrs| ensures NameShape(NamesOf(p)[i]) { NameShaped(Index(Distinct(p.addrs), p.addrs[i])); }
  }

  // ----- The output as an input -----

  ghost predicate AllClean(lits: seq<string>) { forall l :: l in lits ==> Clean(l) }

  /** No address arises where pieces meet. */
  lemma CleanStep(l: string, name: string, r: string)
    requires Clean(l) && NameShape(name) && Clean(r)
    ensures Clean(l + Gap(l) + name + " " + r)
  {
    var t := l + Gap(l) + name + " " + r;
    var a := |l + Gap(l)|;
    var b := a + |name| + 1;
    forall i: nat ensures !StartsAt(t, i) {
      assert i + 2 < |l| ==> (StartsAt(t, i) ==> StartsAt(l, i));
      assert b <= i && i + 2 < |t| ==> (StartsAt(t, i) ==> StartsAt(r, i - b));
      assert a <= i < b - 1 ==> t[i + 1] != 'x' by { if a <= i < b - 1 { BeyondName(l, name, r, i); } }
      assert t[b - 1] == ' ' && (Soft(l) ==> t[|l|] == ' ');
      assert i < |l| ==> t[i] == l[i];
      assert i + 1 < |l| ==> t[i + 1] == l[i + 1];
    }
  }

  lemma BeyondName(l: string, name: string, r: string, i: nat)
    requires NameShape(name) && |l + Gap(l)| <= i < |l + Gap(l)| + |name|
    ensures (l + Gap(l) + name + " " + r)[i + 1] != 'x'
  {
    var t, k := l + Gap(l) + name + " " + r, i + 1 - |l + Gap(l)|;
    assert t[i + 1] == if k < |name| then name[k] else ' ';
  }

  lemma {:induction false} TextClean(lits: seq<string>, names: seq<string>)
    requires |lits| == |names| + 1 && AllClean(lits) && forall n :: n in names ==> NameShape(n)
    ensures Clean(Line(Weave(lits, names)))
    decreases |names|
  {
    hide Clean, NameShape;
    assert lits[0] in lits;
    if names != [] {
      assert names[0] in names;
      TextClean(lits[1..], names[1..]);
      LineStep(lits, names);
      CleanStep(lits[0], names[0], Line(Weave(lits[1..], names[1..])));
    }
  }

  lemma LineStep(lits: seq<string>, names: seq<string>)
    requires |lits| == |names| + 1 && names != [] && NameShape(names[0])
    ensures Line(Weave(lits, names)) == lits[0] + Gap(lits[0]) + names[0] + " " + Line(Weave(lits[1..], names[1..]))
  {
    TextStep(lits, names);
    var a, b := Line(Weave(lits, names)), lits[0] + Gap(lits[0]) + names[0] + " " + Line(Weave(lits[1..], names[1..]));
    assert a + "\n" == b + "\n";
    assert a == (a + "\n")[..|a|] && b == (b + "\n")[..|b|];
  }

  lemma SplitClean(t: string)
    ensures AllClean(Split(t, 0).lits)
  {
    forall n: nat | n <= |Split(t, 0).addrs| ensures Clean(Split(t, 0).lits[n]) { SplitShape(t, 0, n); }
  }

  /** What is printed holds no address, and printed again it stays as it is. So without the condition on literals, an
      input with addresses shares its text with one that has none. */
  lemma OutputIsFixed(t: string)
    ensures var u := Line(Printed(Split(t, 0)));
            Split(u, 0) == Parts([u], []) && PrintedText(Split(u, 0)) == PrintedText(Split(t, 0))
  {
    var p := Split(t, 0);
    var u := Line(Printed(p));
    PrintedIsWoven(p);
    NamesShaped(p);
    SplitClean(t);
    TextClean(p.lits, NamesOf(p));
    assert First(u, 0) == |u|;
    SplitEnd(u, 0);
    assert u[0..] == u;
    assert Printed(Parts([u], [])) == [u];
  }

  // ----- The same, said without the functions above -----

  const HexDigits := "0123456789abcdef"

  ghost predicate AddressAt(t: string, i: nat) { i + 2 < |t| && t[i] == '0' && t[i + 1] == 'x' && t[i + 2] in HexDigits }

  lemma HexIs(c: char)
    ensures IsHex(c) <==> c in HexDigits
  {
    if IsHex(c) {
      var k := if c <= '9' then c as int - '0' as int else c as int - 'a' as int + 10;
      assert HexDigits[k] == c;
    }
  }

  lemma StartIs(t: string, i: nat)
    ensures StartsAt(t, i) <==> AddressAt(t, i)
  {
    hide IsHex;
    if i + 2 < |t| { HexIs(t[i + 2]); }
  }

  /** `t[i..j]` is the leftmost address from `o` on, as long as possible. */
  ghost predicate NextAddress(t: string, o: nat, i: nat, j: nat) {
    && o <= i && i + 2 < j <= |t| && AddressAt(t, i) && (forall k :: i + 2 <= k < j ==> t[k] in HexDigits)
    && (j < |t| ==> t[j] !in HexDigits) && forall k :: o <= k < i ==> !AddressAt(t, k)
  }

  /** The addresses from `o` on, one after the other, and what stands between them. */
  ghost predicate Cut(t: string, o: nat, p: Parts)
    decreases |p.addrs|
  {
    && o <= |t| && |p.lits| == |p.addrs| + 1
    && if p.addrs == [] then p.lits[0] == t[o..] && forall k :: o <= k < |t| ==> !AddressAt(t, k)
       else
         var i := o + |p.lits[0]|;
         var j := i + |p.addrs[0]|;
         NextAddress(t, o, i, j) && p.lits[0] == t[o..i] && p.addrs[0] == t[i..j] && Cut(t, j, Parts(p.lits[1..], p.addrs[1..]))
  }

  lemma FirstIs(t: string, o: nat, i: nat)
    requires o <= i <= |t|
    ensures First(t, o) == i <==> (i < |t| ==> AddressAt(t, i)) && forall k :: o <= k < i ==> !AddressAt(t, k)
  {
    hide IsHex, AddressAt, StartsAt;
    var j := First(t, o);
    forall k: nat ensures StartsAt(t, k) <==> AddressAt(t, k) { StartIs(t, k); }
  }

  lemma HexEndIs(t: string, o: nat, j: nat)
    requires o <= j <= |t|
    ensures HexEnd(t, o) == j <==> (forall k :: o <= k < j ==> t[k] in HexDigits) && (j < |t| ==> t[j] !in HexDigits)
  {
    hide IsHex;
    var e := HexEnd(t, o);
    forall k | 0 <= k < |t| ensures IsHex(t[k]) <==> t[k] in HexDigits { HexIs(t[k]); }
  }

  lemma NextAddressIff(t: string, o: nat, i: nat, j: nat)
    requires o <= i && i + 2 <= j <= |t|
    ensures NextAddress(t, o, i, j) <==> First(t, o) == i && HexEnd(t, i + 2) == j
  {
    hide First, HexEnd, StartsAt;
    FirstIs(t, o, i);
    HexEndIs(t, i + 2, j);
  }

  lemma FirstRoom(t: string, o: nat)
    requires o <= |t| && First(t, o) < |t|
    ensures First(t, o) + 2 <= |t|
  {
    hide First, IsHex;
  }

  lemma {:induction false} SplitCut(t: string, o: nat)
    requires o <= |t|
    ensures Cut(t, o, Split(t, o))
    decreases |t| - o
  {
    hide Split, HexEnd, First, NextAddress, AddressAt, StartsAt;
    var p, i := Split(t, o), First(t, o);
    if i == |t| {
      SplitEnd(t, o);
      FirstIs(t, o, i);
    } else {
      FirstRoom(t, o);
      var j := HexEnd(t, i + 2);
      SplitAt(t, o);
      NextAddressIff(t, o, i, j);
      SplitCut(t, j);
      assert Parts(p.lits[1..], p.addrs[1..]) == Split(t, j);
    }
  }

  lemma {:induction false} CutOnly(t: string, o: nat, p: Parts)
    requires Cut(t, o, p)
    ensures p == Split(t, o)
    decreases |p.addrs|
  {
    hide Split, HexEnd, First, AddressAt, StartsAt;
    if p.addrs == [] {
      FirstIs(t, o, |t|);
      SplitEnd(t, o);
    } else {
      var i := o + |p.lits[0]|;
      var j := i + |p.addrs[0]|;
      NextAddressIff(t, o, i, j);
      hide NextAddress;
      SplitAt(t, o);
      CutOnly(t, j, Parts(p.lits[1..], p.addrs[1..]));
      PartsEqual(p, Split(t, o));
    }
  }

  lemma PartsEqual(p: Parts, q: Parts)
    requires p.lits != [] && q.lits != [] && p.addrs != [] && q.addrs != [] && p.lits[0] == q.lits[0] && p.addrs[0] == q.addrs[0]
    requires p.lits[1..] == q.lits[1..] && p.addrs[1..] == q.addrs[1..]
    ensures p == q
  {
    assert p.lits == [p.lits[0]] + p.lits[1..] && q.lits == [q.lits[0]] + q.lits[1..];
    assert p.addrs == [p.addrs[0]] + p.addrs[1..] && q.addrs == [q.addrs[0]] + q.addrs[1..];
  }

  /** The parts of a text are exactly those cut that way. */
  lemma CutIff(t: string, p: Parts)
    ensures Cut(t, 0, p) <==> p == Split(t, 0)
  {
    hide Split, Cut;
    SplitCut(t, 0);
    if Cut(t, 0, p) { CutOnly(t, 0, p); }
  }

  // Names

  function Power(k: nat): nat { if k == 0 then 1 else 10 * Power(k - 1) }

  lemma {:induction false} DigitsCount(n: nat, k: nat)
    requires k > 0
    ensures |Digits(n)| <= k <==> n < Power(k)
  {
    if n >= 10 {
      DigitsShape(n / 10);
      if k > 1 { DigitsCount(n / 10, k - 1); } else { assert Power(1) == 10; }
    } else {
      PowerLarge(k);
    }
  }

  lemma {:induction false} PowerLarge(k: nat)
    requires k > 0
    ensures Power(k) >= 10
  {
    if k > 1 { PowerLarge(k - 1); } else { assert Power(1) == 10 * Power(0); }
  }

  lemma {:induction false} DigitsLead(n: nat)
    requires n > 0
    ensures Digits(n) != "" && Digits(n)[0] != '0'
  {
    if n >= 10 { DigitsLead(n / 10); }
  }

  /** The format: "0X" and the number in decimal, filled up with zeros to seven digits and with none beyond. */
  ghost predicate Formats(s: string, n: nat) {
    && |s| >= 9 && s[..2] == "0X" && (forall i :: 2 <= i < |s| ==> s[i] in "0123456789")
    && Value(s[2..]) == n && (|s| > 9 ==> s[2] != '0')
  }

  lemma DecimalIs(c: char)
    ensures '0' <= c <= '9' <==> c in "0123456789"
  {
    if '0' <= c <= '9' { assert "0123456789"[c as int - '0' as int] == c; }
  }

  lemma NameFormats(n: nat)
    ensures Formats(Name(n), n) && (|Name(n)| == 9 <==> n < 10000000)
  {
    NameValue(n);
    NameShaped(n);
    DigitsCount(n, 7);
    assert Power(7) == 10000000 by { Powers(); }
    forall i | 2 <= i < |Name(n)| ensures Name(n)[i] in "0123456789" { DecimalIs(Name(n)[i]); }
    if |Digits(n)| < 7 { ZerosShape(7 - |Digits(n)|); }
    if n > 0 { DigitsLead(n); }
    hide Digits, Zeros, Value, Power;
  }

  lemma Powers()
    ensures Power(7) == 10000000
  {
    assert Power(3) == 1000;
    assert Power(5) == 100000;
  }

  lemma {:induction false} ValueTells(a: string, b: string)
    requires |a| == |b| && Value(a) == Value(b)
    requires (forall i :: 0 <= i < |a| ==> '0' <= a[i] <= '9') && forall i :: 0 <= i < |b| ==> '0' <= b[i] <= '9'
    ensures a == b
  {
    if a != "" {
      var n := |a| - 1;
      LastTells(Value(a[..n]), a[n], Value(b[..n]), b[n]);
      hide Value;
      ValueTells(a[..n], b[..n]);
      assert a == a[..n] + [a[n]] && b == b[..n] + [b[n]];
    }
  }

  lemma LastTells(m: int, c: char, n: int, d: char)
    requires '0' <= c <= '9' && '0' <= d <= '9' && 10 * m + (c as int - '0' as int) == 10 * n + (d as int - '0' as int)
    ensures m == n && c == d
  {
  }

  lemma {:induction false} ValueBounds(a: string)
    requires forall i :: 0 <= i < |a| ==> '0' <= a[i] <= '9'
    ensures 0 <= Value(a) < Power(|a|)
    ensures a != "" && a[0] != '0' ==> Value(a) >= Power(|a| - 1)
  {
    if a != "" {
      var n := |a| - 1;
      ValueBounds(a[..n]);
      if n == 0 { assert a[..n] == ""; } else { assert a[..n][0] == a[0]; }
    }
  }

  lemma {:induction false} PowerGrows(j: nat, k: nat)
    requires j <= k
    ensures Power(j) <= Power(k)
  {
    if j < k { PowerGrows(j, k - 1); }
  }

  lemma Decimal(s: string, n: nat)
    requires Formats(s, n)
    ensures |s| >= 9 && (forall i :: 0 <= i < |s[2..]| ==> '0' <= s[2..][i] <= '9') && s == "0X" + s[2..]
  {
    hide Value;
    forall i | 2 <= i < |s| ensures '0' <= s[i] <= '9' { DecimalIs(s[i]); }
    assert s == s[..2] + s[2..];
  }

  lemma Shorter(a: string, b: string, n: nat)
    requires Formats(a, n) && Formats(b, n)
    ensures |a| >= |b|
  {
    hide Value, Power;
    Decimal(a, n);
    Decimal(b, n);
    if |a| < |b| {
      ValueBounds(a[2..]);
      ValueBounds(b[2..]);
      PowerGrows(|a| - 2, |b| - 3);
    }
  }

  /** A name is the only string of its format. */
  lemma NameIff(s: string, n: nat)
    ensures Formats(s, n) <==> s == Name(n)
  {
    hide Name, Value;
    NameFormats(n);
    if Formats(s, n) {
      Shorter(s, Name(n), n);
      Shorter(Name(n), s, n);
      Decimal(s, n);
      Decimal(Name(n), n);
      ValueTells(s[2..], Name(n)[2..]);
    }
  }

  /** An address met for the first time is numbered by those before it, and keeps its name. */
  lemma NumberIs(p: Parts, i: nat)
    requires i < |p.addrs|
    ensures p.addrs[i] !in p.addrs[..i] ==> NameOf(p, i) == Name(|set x | x in p.addrs[..i]|)
    ensures forall j :: 0 <= j < i && p.addrs[j] == p.addrs[i] ==> NameOf(p, j) == NameOf(p, i)
  {
    hide Name;
    if p.addrs[i] !in p.addrs[..i] {
      NewIndex(p.addrs, i);
      DistinctSize(p.addrs[..i]);
    }
  }

  lemma {:induction false} DistinctSize(a: seq<string>)
    ensures |Distinct(a)| == |set x | x in a|
  {
    if a != [] {
      var n := |a| - 1;
      DistinctSize(a[..n]);
      DistinctNext(a, n);
      assert a[..n + 1] == a;
      hide Distinct;
      OneMore(a, n);
      var s := set x | x in a[..n];
      assert (set x | x in a) == s + {a[n]};
      assert a[n] in s <==> a[n] in a[..n];
    }
  }

  lemma {:induction false} PiecesUpTo(p: Parts, k: nat, n: nat)
    requires |p.lits| == |p.addrs| + 1 && k < n <= |p.addrs|
    ensures PrintedUpTo(p, n)[2 * k] == p.lits[k] && PrintedUpTo(p, n)[2 * k + 1] == NameOf(p, k)
  {
    hide NameOf;
    if k < n - 1 { PiecesUpTo(p, k, n - 1); }
  }

  /** Literals and names are printed in turn. */
  lemma PiecesAre(p: Parts, k: nat)
    requires |p.lits| == |p.addrs| + 1 && k <= |p.addrs|
    ensures |Printed(p)| == 2 * |p.addrs| + 1 && Printed(p)[2 * k] == p.lits[k]
    ensures k < |p.addrs| ==> Printed(p)[2 * k + 1] == NameOf(p, k)
  {
    if k < |p.addrs| { PiecesUpTo(p, k, |p.addrs|); }
  }

  /** A blank goes between two pieces, unless the first one ends with white space that is no blank. */
  lemma BlanksAre(out: seq<string>, piece: string)
    ensures Line([piece]) == piece
    ensures out != [] ==>
              var last := out[|out| - 1];
              Line(out + [piece]) == Line(out) + (if last != "" && last[|last| - 1] as int in [9, 10, 11, 12, 13] then "" else " ") + piece
  {
    if out != [] { LineAppend(out, piece); }
    hide Line;
  }

  // ----- The program -----

  /** The leftmost address from `o` on, as long as possible. */
  method Search(t: string, o: nat) returns (found: bool, i: nat, j: nat)
    requires o <= |t|
    ensures found <==> exists k :: o <= k < |t| && StartsAt(t, k)
    ensures found ==> i == First(t, o) < |t| && j == HexEnd(t, i + 2)
    ensures !found ==> First(t, o) == |t|
  {
    i, j := o, o;
    while i < |t| && !StartsAt(t, i)
      invariant o <= i <= |t| && First(t, o) == First(t, i) && forall k :: o <= k < i ==> !StartsAt(t, k)
    {
      i := i + 1;
    }
    found := i < |t|;
    if found {
      j := i + 2;
      while j < |t| && IsHex(t[j])
        invariant i + 2 <= j <= |t| && HexEnd(t, i + 2) == HexEnd(t, j)
      {
        j := j + 1;
      }
    }
  }

  /** Prints one piece after the text so far. */
  method Print(text: string, soft: bool, piece: string, ghost out: seq<string>) returns (text': string, soft': bool)
    requires text == Line(out) && soft == (out != [] && Soft(out[|out| - 1]))
    ensures text' == Line(out + [piece]) && soft' == Soft(piece)
  {
    if out != [] { LineAppend(out, piece); }
    text' := if soft then text + " " + piece else text + piece;
    soft' := Soft(piece);
  }

  /** The table once `address`, the next one met, has its name. */
  method Register(pointers: map<string, string>, address: string, ghost p: Parts, ghost k: nat) returns (pointers': map<string, string>)
    requires k < |p.addrs| && Known(pointers, p.addrs, k) && address == p.addrs[k]
    ensures Known(pointers', p.addrs, k + 1) && address in pointers' && pointers'[address] == NameOf(p, k)
  {
    hide Known, Name, NameIn, NameOf;
    NameOfIn(p, k);
    pointers' := pointers;
    if address in pointers {
      KnownOld(pointers, p.addrs, k);
    } else {
      KnownNew(pointers, p.addrs, k);
      pointers' := pointers[address := Name(|pointers|)];
    }
  }

  lemma PrintedNext(p: Parts, k: nat)
    requires k < |p.addrs| && |p.lits| == |p.addrs| + 1
    ensures PrintedUpTo(p, k + 1) == PrintedUpTo(p, k) + [p.lits[k]] + [NameOf(p, k)]
  {
    hide NameOf;
  }

  method Normalize(t: string) returns (text: string)
    ensures text == PrintedText(Split(t, 0))
  {
    hide Split, First, HexEnd, Known, Name, NameIn, NameOf, Line, Soft;
    ghost var p := Split(t, 0);
    NothingKnown(p.addrs);
    ghost var out := [];
    var soft := false;
    text := "";
    EmptyLine();
    var pointers: map<string, string>, offset := map[], 0;
    var found, i, j := Search(t, 0);
    ghost var k := 0;
    while found
      invariant offset <= |t| && k <= |p.addrs| && Split(t, offset) == Parts(p.lits[k..], p.addrs[k..])
      invariant found <==> First(t, offset) < |t|
      invariant found ==> i == First(t, offset) && j == HexEnd(t, i + 2)
      invariant Known(pointers, p.addrs, k) && out == PrintedUpTo(p, k)
      invariant text == Line(out) && soft == (out != [] && Soft(out[|out| - 1]))
      decreases |t| - offset
    {
      var address := t[i..j];
      SplitAt(t, offset);
      RestAt(p, k);
      PrintedNext(p, k);
      pointers := Register(pointers, address, p, k);
      text, soft := Print(text, soft, t[offset..i], out);
      out := out + [t[offset..i]];
      text, soft := Print(text, soft, pointers[address], out);
      out := out + [pointers[address]];
      offset := j;
      k := k + 1;
      found, i, j := Search(t, offset);
    }
    SplitEnd(t, offset);
    text, soft := Print(text, soft, t[offset..], out);
    text := text + "\n";
  }

  lemma EmptyLine()
    ensures Line([]) == ""
  {
  }

  lemma RestAt(p: Parts, k: nat)
    requires k < |p.addrs| && |p.lits| == |p.addrs| + 1
    ensures p.addrs[k..][0] == p.addrs[k] && p.lits[k..][0] == p.lits[k]
    ensures p.addrs[k..][1..] == p.addrs[k + 1..] && p.lits[k..][1..] == p.lits[k + 1..]
  {
  }

  lemma NameOfIn(p: Parts, i: nat)
    requires i < |p.addrs|
    ensures NameOf(p, i) == NameIn(p.addrs, p.addrs[i])
  {
  }

  lemma SplitEnd(t: string, o: nat)
    requires o <= |t| && First(t, o) == |t|
    ensures Split(t, o) == Parts([t[o..]], [])
  {
  }

  function Count(a: seq<string>): nat { |Distinct(a)| }

  /** The name of an address of `a`. */
  function NameIn(a: seq<string>, x: string): string { if x in a then Name(Index(Distinct(a), x)) else "" }

  /** The table gives the names of the first `k` addresses. */
  ghost predicate Known(pointers: map<string, string>, a: seq<string>, k: nat) {
    k <= |a| && |pointers| == Count(a[..k])
    && (forall x :: x in pointers <==> x in a[..k])
    && forall x :: x in pointers ==> pointers[x] == NameIn(a, x)
  }

  lemma NothingKnown(a: seq<string>)
    ensures Known(map[], a, 0)
  {
  }

  lemma KnownOld(pointers: map<string, string>, a: seq<string>, k: nat)
    requires Known(pointers, a, k) && k < |a| && a[k] in pointers
    ensures Known(pointers, a, k + 1) && pointers[a[k]] == NameIn(a, a[k])
  {
    hide Count, NameIn;
    CountNext(a, k);
    OneMore(a, k);
  }

  lemma KnownNew(pointers: map<string, string>, a: seq<string>, k: nat)
    requires Known(pointers, a, k) && k < |a| && a[k] !in pointers
    ensures Known(pointers[a[k] := Name(|pointers|)], a, k + 1) && Name(|pointers|) == NameIn(a, a[k])
  {
    hide Count, NameIn, Name;
    CountNext(a, k);
    OneMore(a, k);
  }

  lemma CountNext(a: seq<string>, k: nat)
    requires k < |a|
    ensures a[k] in a[..k] ==> Count(a[..k + 1]) == Count(a[..k])
    ensures a[k] !in a[..k] ==> Count(a[..k + 1]) == Count(a[..k]) + 1 && NameIn(a, a[k]) == Name(Count(a[..k]))
  {
    DistinctNext(a, k);
    hide Name, Distinct, Index;
    if a[k] !in a[..k] { NewIndex(a, k); }
  }

  lemma OneMore(a: seq<string>, k: nat)
    requires k < |a|
    ensures forall x :: x in a[..k + 1] <==> x in a[..k] || x == a[k]
    ensures a[k] in a && forall x :: x in a[..k + 1] ==> x in a
  {
    assert a[..k + 1] == a[..k] + [a[k]];
  }

  lemma DistinctNext(a: seq<string>, k: nat)
    requires k < |a|
    ensures Distinct(a[..k + 1]) == if a[k] in a[..k] then Distinct(a[..k]) else Distinct(a[..k]) + [a[k]]
  {
    var front := a[..k + 1];
    assert front[..k] == a[..k] && front[k] == a[k];
  }

  /** A new address comes after all those seen. */
  lemma NewIndex(a: seq<string>, k: nat)
    requires k < |a| && a[k] !in a[..k]
    ensures a[k] in a && Index(Distinct(a), a[k]) == |Distinct(a[..k])|
  {
    DistinctNext(a, k);
    DistinctPrefix(a, k + 1);
    hide Distinct;
    assert a[k] in a;
    assert Distinct(a)[|Distinct(a[..k])|] == a[k];
    IndexUnique(Distinct(a), a[k], |Distinct(a[..k])|);
  }

  lemma {:induction false} DistinctPrefix(a: seq<string>, k: nat)
    requires k <= |a|
    ensures Distinct(a[..k]) <= Distinct(a)
  {
    if k < |a| {
      DistinctPrefix(a[..|a| - 1], k);
      assert a[..|a| - 1][..k] == a[..k];
    } else {
      assert a[..k] == a;
    }
  }
}
