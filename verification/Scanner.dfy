/** The scanner's input buffer: refilled in place, and the tokens read through it. */
module Scanner {

  const Eob: char := 0 as char       // the end-of-buffer character; it may also occur in the file
  const ReadSize: nat := 8192        // the largest read asked for at once

  const IntMax: nat := 0x7FFF_FFFF   // sizes are 32-bit integers in the source

  datatype Status = NewFile | Normal | EofPending

  datatype Action = EndOfFile | LastMatch | ContinueScan

  // ----- Longest matches in a flat text -----

  datatype Step = Jam | Go(state: nat)

  /** The matching automaton: a start state for each start condition, and the start condition after each token. */
  datatype Matcher = Matcher(start: nat -> nat, next: (nat, char) -> Step, accepting: nat -> bool, after: (nat, seq<char>) -> nat)

  /** Some rule matches every single character. */
  ghost predicate HasDefault(d: Matcher) {
    forall m, c :: d.next(d.start(m), c).Go? && d.accepting(d.next(d.start(m), c).state)
  }

  ghost function StateAfter(d: Matcher, m: nat, s: seq<char>): Step {
    if s == [] then Go(d.start(m))
    else match StateAfter(d, m, s[..|s| - 1]) case Jam => Jam case Go(q) => d.next(q, s[|s| - 1])
  }

  ghost predicate Accepts(d: Matcher, m: nat, s: seq<char>) {
    s != [] && StateAfter(d, m, s).Go? && d.accepting(StateAfter(d, m, s).state)
  }

  /** The length of the longest accepted prefix of `s` of length at most `n`. */
  ghost function Best(d: Matcher, m: nat, s: seq<char>, n: nat): (k: nat)
    requires n <= |s|
    ensures k <= n && (k > 0 ==> Accepts(d, m, s[..k]))
    ensures forall j :: k < j <= n ==> !Accepts(d, m, s[..j])
  {
    if n == 0 then 0 else if Accepts(d, m, s[..n]) then n else Best(d, m, s, n - 1)
  }

  ghost function Longest(d: Matcher, m: nat, s: seq<char>): nat { Best(d, m, s, |s|) }

  lemma LongestPositive(d: Matcher, m: nat, s: seq<char>)
    requires HasDefault(d) && s != []
    ensures 0 < Longest(d, m, s) <= |s|
  {
    assert s[..1][..0] == [];
    assert Accepts(d, m, s[..1]);
  }

  /** The tokens of a flat text. */
  ghost function Tokens(d: Matcher, m: nat, s: seq<char>): seq<seq<char>>
    requires HasDefault(d)
    decreases |s|
  {
    if s == [] then []
    else
      LongestPositive(d, m, s);
      var tok := s[..Longest(d, m, s)];
      [tok] + Tokens(d, d.after(m, tok), s[|tok|..])
  }

  /** The first token is accepted, no longer prefix is, and the others are the tokens of what follows it, in the start
      condition set by it. */
  lemma FirstToken(d: Matcher, m: nat, s: seq<char>)
    requires HasDefault(d) && s != []
    ensures var toks := Tokens(d, m, s);
            && toks != [] && toks[0] != [] && toks[0] <= s && Accepts(d, m, toks[0])
            && (forall j :: |toks[0]| < j <= |s| ==> !Accepts(d, m, s[..j]))
            && toks[1..] == Tokens(d, d.after(m, toks[0]), s[|toks[0]|..])
  {
    LongestPositive(d, m, s);
    hide Accepts, StateAfter;
  }

  ghost function Joined(toks: seq<seq<char>>): seq<char> { if toks == [] then [] else toks[0] + Joined(toks[1..]) }

  lemma {:induction false} TokensJoin(d: Matcher, m: nat, s: seq<char>)
    requires HasDefault(d)
    ensures Joined(Tokens(d, m, s)) == s
    decreases |s|
  {
    if s != [] {
      LongestPositive(d, m, s);
      var tok := s[..Longest(d, m, s)];
      TokensJoin(d, d.after(m, tok), s[|tok|..]);
      assert tok + s[|tok|..] == s;
    }
  }

  lemma {:induction false} Jammed(d: Matcher, m: nat, s: seq<char>, n: nat)
    requires n <= |s| && StateAfter(d, m, s[..n]) == Jam
    ensures StateAfter(d, m, s) == Jam
  {
    if n < |s| {
      assert s[..|s| - 1][..n] == s[..n];
      Jammed(d, m, s[..|s| - 1], n);
    } else {
      assert s[..n] == s;
    }
  }

  /** No longer match after a jam. */
  lemma BestAtJam(d: Matcher, m: nat, s: seq<char>, n: nat)
    requires n < |s| && StateAfter(d, m, s[..n + 1]) == Jam
    ensures Longest(d, m, s) == Best(d, m, s, n)
  {
    forall j | n < j <= |s| ensures !Accepts(d, m, s[..j]) {
      assert s[..j][..n + 1] == s[..n + 1];
      Jammed(d, m, s[..j], n + 1);
    }
  }

  lemma StepOne(d: Matcher, m: nat, s: seq<char>, n: nat)
    requires n < |s| && StateAfter(d, m, s[..n]).Go?
    ensures StateAfter(d, m, s[..n + 1]) == d.next(StateAfter(d, m, s[..n]).state, s[n])
  {
    assert s[..n + 1][..n] == s[..n];
  }

  /** `n` characters of `s` lead to `q`, and `best` of them are the longest match among these. */
  ghost predicate Matched(d: Matcher, m: nat, s: seq<char>, n: nat, q: nat, best: nat) {
    n <= |s| && StateAfter(d, m, s[..n]) == Go(q) && best == Best(d, m, s, n)
  }

  lemma MatchedStart(d: Matcher, m: nat, s: seq<char>)
    ensures Matched(d, m, s, 0, d.start(m), 0)
  {
  }

  lemma MatchedStep(d: Matcher, m: nat, s: seq<char>, n: nat, q: nat, best: nat)
    requires Matched(d, m, s, n, q, best) && n < |s|
    ensures d.next(q, s[n]).Go? ==>
              Matched(d, m, s, n + 1, d.next(q, s[n]).state, if d.accepting(d.next(q, s[n]).state) then n + 1 else best)
    ensures d.next(q, s[n]) == Jam ==> best == Longest(d, m, s)
  {
    StepOne(d, m, s, n);
    if d.next(q, s[n]) == Jam { BestAtJam(d, m, s, n); }
  }

  lemma MatchedEnd(d: Matcher, m: nat, s: seq<char>, n: nat, q: nat, best: nat)
    requires Matched(d, m, s, n, q, best)
    ensures best <= n <= |s| && (n == |s| ==> best == Longest(d, m, s))
  {
  }

  lemma MatchedWindow(d: Matcher, m: nat, window: seq<char>, unread: seq<char>, q: nat, best: nat)
    requires Matched(d, m, window + unread, |window|, q, best)
    ensures StateAfter(d, m, window).Go? && window <= window + unread
  {
    assert (window + unread)[..|window|] == window;
  }

  lemma MatchedAgain(d: Matcher, m: nat, window: seq<char>, rest: seq<char>, q: nat, best: nat)
    requires window <= rest && StateAfter(d, m, window) == Go(q) && best == Longest(d, m, window)
    ensures Matched(d, m, rest, |window|, q, best)
  {
    assert rest[..|window|] == window == window[..|window|];
    BestSame(d, m, window, rest, |window|);
  }

  // ----- The buffer -----

  class Scanner {
    ghost const file: seq<char>
    ghost var consumed: seq<char>   // text of the tokens already returned
    var ch: array<char>             // bufSize characters and two end-of-buffer characters
    var bufSize: nat
    var nChars: nat                 // characters in the buffer
    var textPtr: nat                // start of the current token
    var status: Status
    var unread: seq<char>           // what is left of the file

    ghost predicate Valid() reads this, ch {
      && bufSize > 0 && ch.Length == bufSize + 2
      && textPtr <= nChars <= bufSize
      && ch[nChars] == Eob && ch[nChars + 1] == Eob
      && (status == EofPending ==> unread == [])
      && (status == NewFile ==> nChars == 0)
      && consumed + Rest() == file
    }

    ghost function Window(): seq<char>
      requires textPtr <= nChars <= ch.Length
      reads this, ch
    {
      ch[textPtr..nChars]
    }

    /** What is still to be matched. */
    ghost function Rest(): seq<char>
      requires textPtr <= nChars <= ch.Length
      reads this, ch
    {
      Window() + unread
    }

    constructor (size: nat, file: seq<char>)
      requires size > 0
      ensures Valid() && fresh(ch) && this.file == file && consumed == [] && Rest() == file && bufSize == size
    {
      this.file := file;
      consumed := [];
      bufSize := size;
      var b := new char[size + 2];
      b[0] := Eob;
      b[1] := Eob;
      ch := b;
      nChars, textPtr, status, unread := 0, 0, NewFile, file;
    }

    /** Moves the current token to the start of the buffer. */
    method MoveDown(count: nat)
      requires textPtr + count <= ch.Length
      modifies ch
      ensures ch[..count] == old(ch[textPtr..textPtr + count])
      ensures forall k :: count <= k < ch.Length ==> ch[k] == old(ch[k])
    {
      var i := 0;
      while i < count
        invariant i <= count
        invariant forall k :: 0 <= k < i ==> ch[k] == old(ch[textPtr + k])
        invariant forall k :: i <= k < ch.Length ==> ch[k] == old(ch[k])
      {
        ch[i] := ch[textPtr + i];
        i := i + 1;
      }
    }

    /** Doubles the buffer until there is room to read. */
    method Grow(count: nat)
      requires bufSize > 0 && ch.Length == bufSize + 2 && count <= bufSize
      modifies this`ch, this`bufSize
      ensures ch == old(ch) || fresh(ch)
      ensures bufSize > count + 1 && ch.Length == bufSize + 2 && ch[..count] == old(ch[..count])
      ensures bufSize == old(bufSize) || bufSize <= 2 * (count + 1)
      ensures old(bufSize) + 2 <= IntMax && count + 1 < IntMax / 2 ==> bufSize + 2 <= IntMax
    {
      while bufSize <= count + 1
        invariant bufSize >= old(bufSize) && ch.Length == bufSize + 2 && ch[..count] == old(ch[..count])
        invariant ch == old(ch) || fresh(ch)
        invariant bufSize == old(bufSize) || bufSize <= 2 * (count + 1)
        decreases count + 1 - bufSize
      {
        var b := new char[2 * bufSize + 2];
        forall k | 0 <= k < ch.Length { b[k] := ch[k]; }
        bufSize := 2 * bufSize;
        ch := b;
      }
    }

    /** Reads at least one character and at most `max`, unless the file is exhausted. */
    method Input(at: nat, max: nat) returns (n: nat)
      requires max > 0 && at + max <= ch.Length
      modifies ch, this`unread
      ensures n <= max && n <= |old(unread)| && (n == 0 <==> old(unread) == [])
      ensures unread == old(unread)[n..] && ch[..at + n] == old(ch[..at]) + old(unread)[..n]
    {
      n := 0;
      if unread != [] {
        assert 1 <= max && 1 <= |unread|;
        n :| 1 <= n <= max && n <= |unread|;
      }
      var i := 0;
      while i < n
        invariant i <= n && unread == old(unread) && ch[..at + i] == old(ch[..at]) + unread[..i]
      {
        ch[at + i] := unread[i];
        i := i + 1;
      }
      unread := unread[n..];
    }

    /** Makes room, reads more of the file after the text matched so far, and closes the buffer. */
    method GetNextBuffer(cp: nat) returns (act: Action)
      requires Valid() && status != NewFile && cp == nChars + 1
      modifies this`ch, this`bufSize, this`nChars, this`textPtr, this`status, this`unread, ch
      ensures Valid() && (ch == old(ch) || fresh(ch))
      ensures textPtr == 0 && Rest() == old(Rest()) && old(Window()) <= Window()
      ensures act == ContinueScan <==> old(unread) != []
      ensures act == EndOfFile <==> old(Rest()) == []
      ensures act == ContinueScan ==> |unread| < |old(unread)| && status == old(status)
      ensures act == LastMatch ==> nChars == |old(Rest())| && status == EofPending
      ensures act == EndOfFile ==> status == NewFile
    {
      var count := cp - textPtr - 1;
      ghost var window, rest := Window(), Rest();
      MoveDown(count);
      assert ch[..count] == window;
      var n := ReadMore(count);
      if n == 0 {
        if count == 0 {
          act, status := EndOfFile, NewFile;
        } else {
          act, status := LastMatch, EofPending;
        }
      } else {
        act := ContinueScan;
      }
      if n + count > bufSize {
        assert false;   // no further extension is ever needed
      }
      Close(n + count);
      assert window + old(unread)[..n] + old(unread)[n..] == rest;
    }

    /** Reads after the first `count` characters, unless the end of the file has been seen. */
    method ReadMore(count: nat) returns (n: nat)
      requires bufSize > 0 && ch.Length == bufSize + 2 && count <= bufSize && (status == EofPending ==> unread == [])
      modifies this`ch, this`bufSize, this`unread, ch
      ensures ch == old(ch) || fresh(ch)
      ensures bufSize > 0 && ch.Length == bufSize + 2 && n + count <= bufSize
      ensures n <= |old(unread)| && (n == 0 <==> old(unread) == []) && unread == old(unread)[n..]
      ensures ch[..count + n] == old(ch[..count]) + old(unread)[..n]
    {
      n := 0;
      if status != EofPending {
        Grow(count);
        var room := bufSize - count - 1;
        n := Input(count, if room > ReadSize then ReadSize else room);
      }
    }

    /** Puts the end-of-buffer characters after the first `n` characters. */
    method Close(n: nat)
      requires n + 2 <= ch.Length
      modifies this`nChars, this`textPtr, ch
      ensures nChars == n && textPtr == 0 && ch[..n] == old(ch[..n]) && ch[n] == Eob && ch[n + 1] == Eob
    {
      nChars, textPtr := n, 0;
      ch[n], ch[n + 1] := Eob, Eob;
    }

    /** The state and the last accepting position before the end of the buffer, found by matching again. */
    method PreviousState(d: Matcher, m: nat, cp: nat) returns (q: nat, best: nat)
      requires textPtr <= cp <= nChars <= ch.Length
      requires StateAfter(d, m, ch[textPtr..cp]).Go?
      ensures StateAfter(d, m, ch[textPtr..cp]) == Go(q)
      ensures best == textPtr + Longest(d, m, ch[textPtr..cp])
    {
      q, best := d.start(m), textPtr;
      ghost var s := ch[textPtr..cp];
      var i := textPtr;
      while i < cp
        invariant textPtr <= i <= cp
        invariant StateAfter(d, m, s[..i - textPtr]) == Go(q) && best == textPtr + Best(d, m, s, i - textPtr)
      {
        StepOne(d, m, s, i - textPtr);
        if d.next(q, ch[i]) == Jam { Jammed(d, m, s, i + 1 - textPtr); }
        q := d.next(q, ch[i]).state;
        i := i + 1;
        if d.accepting(q) { best := i; }
      }
      assert s[..cp - textPtr] == s;
    }

    /** Refills the buffer and matches the token again up to where it was. */
    method AtEndOfBuffer(d: Matcher, m: nat, cp: nat, q: nat, best: nat) returns (act: Action, cp': nat, q': nat, best': nat)
      requires Valid() && cp == nChars && textPtr <= best && Matched(d, m, Rest(), cp - textPtr, q, best - textPtr)
      modifies this`ch, this`bufSize, this`nChars, this`textPtr, this`status, this`unread, ch
      ensures Valid() && (ch == old(ch) || fresh(ch)) && Rest() == old(Rest())
      ensures textPtr <= cp' <= nChars && cp' - textPtr == old(cp - textPtr) && textPtr <= best'
      ensures Matched(d, m, Rest(), cp' - textPtr, q', best' - textPtr)
      ensures act == EndOfFile <==> old(Rest()) == []
      ensures act == ContinueScan ==> |unread| < |old(unread)|
      ensures act == LastMatch ==> cp' - textPtr == |old(Rest())|
    {
      hide StateAfter, Accepts, Best, Longest, Matched;
      if status == NewFile { status := Normal; }
      var amount := cp - textPtr;
      ghost var window, rest := Window(), Rest();
      MatchedWindow(d, m, window, unread, q, best - textPtr);
      act := GetNextBuffer(cp + 1);
      cp' := textPtr + amount;
      assert ch[textPtr..cp'] == window;
      q', best' := PreviousState(d, m, cp');
      MatchedAgain(d, m, window, rest, q', best' - textPtr);
    }

    /** Finds the end of the longest token. The loop reads the buffer without looking at its length: the
        end-of-buffer characters stop it. */
    method Match(d: Matcher, m: nat) returns (more: bool, best: nat)
      requires Valid() && HasDefault(d)
      modifies this`ch, this`bufSize, this`nChars, this`textPtr, this`status, this`unread, ch
      ensures Valid() && (ch == old(ch) || fresh(ch)) && Rest() == old(Rest())
      ensures more <==> Rest() != []
      ensures more ==> textPtr <= best <= nChars && best - textPtr == Longest(d, m, Rest())
    {
      hide HasDefault, StateAfter, Accepts, Best, Longest, Matched;
      ghost var rest := Rest();
      var cp, q := textPtr, d.start(m);
      best := textPtr;
      MatchedStart(d, m, rest);
      while true
        invariant Valid() && (ch == old(ch) || fresh(ch)) && Rest() == rest
        invariant textPtr <= cp <= nChars && textPtr <= best && Matched(d, m, rest, cp - textPtr, q, best - textPtr)
        decreases |unread|, nChars - cp
      {
        if ch[cp] == Eob && cp >= nChars {
          var act;
          act, cp, q, best := AtEndOfBuffer(d, m, cp, q, best);
          if act == EndOfFile { return false, best; }
          if act == LastMatch { break; }
        } else {
          assert rest[cp - textPtr] == Window()[cp - textPtr];
          MatchedStep(d, m, rest, cp - textPtr, q, best - textPtr);
          var step := d.next(q, ch[cp]);
          if step == Jam { break; }
          cp := cp + 1;
          q := step.state;
          if d.accepting(q) { best := cp; }
        }
      }
      MatchedEnd(d, m, rest, cp - textPtr, q, best - textPtr);
      more := true;
    }

    method NextToken(d: Matcher, m: nat) returns (more: bool, tok: seq<char>)
      requires Valid() && HasDefault(d)
      modifies this, ch
      ensures Valid() && (ch == old(ch) || fresh(ch))
      ensures more <==> old(Rest()) != []
      ensures more ==> tok == old(Rest())[..Longest(d, m, old(Rest()))]
      ensures Rest() == if more then old(Rest())[|tok|..] else []
    {
      hide HasDefault, StateAfter, Accepts, Best, Longest;
      var best;
      more, best := Match(d, m);
      tok := [];
      if more { tok := Take(best); }
    }

    /** Ends the current token at `end`. */
    method Take(end: nat) returns (tok: seq<char>)
      requires Valid() && textPtr <= end <= nChars
      modifies this`consumed, this`textPtr
      ensures Valid() && tok == old(Rest())[..end - old(textPtr)] && Rest() == old(Rest())[end - old(textPtr)..]
    {
      ghost var rest := Rest();
      tok := ch[textPtr..end];
      consumed := consumed + tok;
      textPtr := end;
      assert tok + Rest() == rest;
    }

    /** Reads the whole file: its tokens do not depend on the buffer size nor on how the reads are cut. */
    method ReadAll(d: Matcher, m: nat) returns (toks: seq<seq<char>>)
      requires Valid() && HasDefault(d) && Rest() == file
      modifies this, ch
      ensures Valid() && toks == Tokens(d, m, file) && consumed == file && unread == []
    {
      hide HasDefault, StateAfter, Accepts, Best, Longest, Tokens;
      toks := [];
      var mode, more, tok := m, true, [];
      ghost var rest := file;
      while more
        invariant Valid() && (ch == old(ch) || fresh(ch)) && Rest() == rest
        invariant toks + Tokens(d, mode, rest) == Tokens(d, m, file) && (!more ==> rest == [])
        decreases |rest| + if more then 1 else 0
      {
        TokensStep(d, mode, rest);
        more, tok := NextToken(d, mode);
        if more {
          TokensShift(toks, tok, Tokens(d, d.after(mode, tok), rest[|tok|..]));
          mode := d.after(mode, tok);
          toks := toks + [tok];
          rest := rest[|tok|..];
        }
      }
      TokensStep(d, mode, rest);
    }
  }

  lemma TokensShift(toks: seq<seq<char>>, tok: seq<char>, later: seq<seq<char>>)
    ensures toks + ([tok] + later) == (toks + [tok]) + later
  {
  }

  lemma TokensStep(d: Matcher, m: nat, s: seq<char>)
    requires HasDefault(d)
    ensures s == [] ==> Tokens(d, m, s) == []
    ensures s != [] ==> var n := Longest(d, m, s); 0 < n <= |s| && Tokens(d, m, s) == [s[..n]] + Tokens(d, d.after(m, s[..n]), s[n..])
  {
    if s != [] { LongestPositive(d, m, s); }
  }

  lemma {:induction false} BestSame(d: Matcher, m: nat, s: seq<char>, t: seq<char>, n: nat)
    requires n <= |s| && n <= |t| && s[..n] == t[..n]
    ensures Best(d, m, s, n) == Best(d, m, t, n)
  {
    if n > 0 {
      assert s[..n - 1] == s[..n][..n - 1] == t[..n - 1];
      BestSame(d, m, s, t, n - 1);
    }
  }
}
