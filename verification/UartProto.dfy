/** The firmware's UART line framer: bytes in, whole command lines out. */
module UartProto {
  import opened Basics

  const MaxLine: nat := 128

  predicate IsBreak(c: char) {
    c == '\r' || c == '\n'
  }

  // ---- the lines of a stream ----

  /** Where the first line break is. */
  function FirstBreak(s: string): (k: nat)
    ensures k <= |s|
    ensures k < |s| ==> IsBreak(s[k])
    ensures forall i | 0 <= i < k :: !IsBreak(s[i])
  {
    if s == "" || IsBreak(s[0]) then 0 else 1 + FirstBreak(s[1..])
  }

  /** The pieces a stream's line breaks complete; what follows the last one is not a piece yet. */
  function Pieces(s: string): seq<string>
    decreases |s|
  {
    var k := FirstBreak(s);
    if k == |s| then [] else [s[..k]] + Pieces(s[k + 1..])
  }

  predicate Fits(piece: string) {
    0 < |piece| < MaxLine
  }

  function Keep(pieces: seq<string>): seq<string> {
    if pieces == [] then []
    else if Fits(pieces[0]) then [pieces[0]] + Keep(pieces[1..])
    else Keep(pieces[1..])
  }

  /** The lines of a stream: its pieces of 1 to 127 bytes, in order. */
  function Lines(s: string): seq<string> {
    Keep(Pieces(s))
  }

  // ---- the framer, byte by byte ----

  datatype State = State(line: string, overflowed: bool)

  const Empty := State("", false)

  function NextByte(st: State, c: char): (State, Option<string>) {
    if IsBreak(c) then
      (Empty, if st.overflowed || st.line == "" then None else Some(st.line))
    else if st.overflowed then (st, None)
    else if |st.line| < MaxLine - 1 then (st.(line := st.line + [c]), None)
    else (st.(overflowed := true), None)
  }

  function Feed(st: State, s: string): (State, seq<string>)
    decreases |s|
  {
    if s == "" then (st, [])
    else
      var (st1, l) := NextByte(st, s[0]);
      var (st2, ls) := Feed(st1, s[1..]);
      (st2, (if l.Some? then [l.value] else []) + ls)
  }

  /** The state that has seen the unfinished piece p. */
  function Pending(p: string): State {
    if |p| < MaxLine then State(p, false) else State(p[..MaxLine - 1], true)
  }

  predicate NoBreak(p: string) {
    forall c | c in p :: !IsBreak(c)
  }

  lemma {:induction false} BreakAfter(p: string, b: char, rest: string)
    requires NoBreak(p) && IsBreak(b)
    ensures FirstBreak(p + ([b] + rest)) == |p|
  {
    if p == "" {
      assert p + ([b] + rest) == [b] + rest;
    } else {
      assert (p + ([b] + rest))[1..] == p[1..] + ([b] + rest);
      BreakAfter(p[1..], b, rest);
    }
  }

  lemma PiecesAfter(p: string, b: char, rest: string)
    requires NoBreak(p) && IsBreak(b)
    ensures Lines(p + ([b] + rest)) == (if Fits(p) then [p] else []) + Lines(rest)
  {
    var s := p + ([b] + rest);
    BreakAfter(p, b, rest);
    assert s[..|p|] == p && s[|p| + 1..] == rest;
    assert Pieces(s) == [p] + Pieces(rest);
    assert ([p] + Pieces(rest))[1..] == Pieces(rest);
  }

  lemma {:induction false} NoLines(p: string)
    requires NoBreak(p)
    ensures Lines(p) == [] && FirstBreak(p) == |p|
  {
    if p != "" { NoLines(p[1..]); }
  }

  lemma NextFromPending(p: string, c: char)
    requires NoBreak(p)
    ensures IsBreak(c) ==> NextByte(Pending(p), c) == (Empty, if Fits(p) then Some(p) else None)
    ensures !IsBreak(c) ==> NextByte(Pending(p), c) == (Pending(p + [c]), None)
  {
    assert |p| >= MaxLine ==> (p + [c])[..MaxLine - 1] == p[..MaxLine - 1];
    assert |p| == MaxLine - 1 ==> (p + [c])[..MaxLine - 1] == p;
  }

  /** From any unfinished piece, the framer returns the lines of piece and stream together. */
  lemma {:induction false} FeedIsLines(p: string, s: string)
    requires NoBreak(p)
    ensures Feed(Pending(p), s).1 == Lines(p + s)
    decreases |s|
  {
    if s == "" {
      assert p + s == p;
      NoLines(p);
    } else {
      var c, rest := s[0], s[1..];
      NextFromPending(p, c);
      if IsBreak(c) {
        FeedIsLines("", rest);
        assert "" + rest == rest && s == [c] + rest;
        PiecesAfter(p, c, rest);
      } else {
        FeedIsLines(p + [c], rest);
        assert p + s == (p + [c]) + rest;
      }
    }
  }

  lemma {:induction false} FeedInTwo(st: State, a: string, b: string)
    ensures Feed(st, a + b).0 == Feed(Feed(st, a).0, b).0
    ensures Feed(st, a + b).1 == Feed(st, a).1 + Feed(Feed(st, a).0, b).1
    decreases |a|
  {
    if a == "" {
      assert a + b == b;
    } else {
      assert (a + b)[1..] == a[1..] + b;
      FeedInTwo(NextByte(st, a[0]).0, a[1..], b);
    }
  }

  // ---- however the stream is cut ----

  function Joined(chunks: seq<string>): string {
    if chunks == [] then "" else chunks[0] + Joined(chunks[1..])
  }

  function Returned(st: State, chunks: seq<string>): seq<string>
    decreases |chunks|
  {
    if chunks == [] then [] else Feed(st, chunks[0]).1 + Returned(Feed(st, chunks[0]).0, chunks[1..])
  }

  lemma {:induction false} ReturnedIsFeed(st: State, chunks: seq<string>)
    ensures Returned(st, chunks) == Feed(st, Joined(chunks)).1
    decreases |chunks|
  {
    if chunks != [] {
      ReturnedIsFeed(Feed(st, chunks[0]).0, chunks[1..]);
      FeedInTwo(st, chunks[0], Joined(chunks[1..]));
    }
  }

  /** Whatever the bytes and wherever the calls cut them: the lines returned are exactly the
      stream's pieces of 1 to 127 bytes, in order, and longer pieces are dropped whole. */
  lemma AnySplitGivesTheLines(chunks: seq<string>)
    ensures Returned(Empty, chunks) == Lines(Joined(chunks))
  {
    ReturnedIsFeed(Empty, chunks);
    FeedIsLines("", Joined(chunks));
    assert "" + Joined(chunks) == Joined(chunks);
  }

  // ---- the framer as the firmware keeps it ----

  class Framer {
    const line: array<char>
    var idx: nat
    var overflowed: bool
    var injected: Option<string>

    constructor ()
      ensures Valid() && Held() == Empty && injected.None? && fresh(line)
    {
      line := new char[MaxLine](_ => '\0');
      idx, overflowed, injected := 0, false, None;
    }

    /** The index leaves room for the terminator; an overflowed line is full. */
    ghost predicate Valid()
      reads this
    {
      line.Length == MaxLine && idx < MaxLine && (overflowed ==> idx == MaxLine - 1)
    }

    ghost function Held(): State
      reads this, line
      requires Valid()
    {
      State(line[..idx], overflowed)
    }

    /** A command from the USB console, cut to the buffer; one that is still pending stays. */
    method Inject(cmd: string)
      modifies this`injected
      ensures injected == if old(injected).Some? then old(injected) else Some(if |cmd| < MaxLine then cmd else cmd[..MaxLine - 1])
    {
      if injected.None? {
        injected := Some(if |cmd| < MaxLine then cmd else cmd[..MaxLine - 1]);
      }
    }

    /** One call: an injected command first; else the readable bytes up to the first line
        they complete. `used` bytes were taken from the UART. */
    method Recv(readable: string) returns (used: nat, result: Option<string>)
      requires Valid()
      modifies this, line
      ensures Valid() && used <= |readable|
      ensures old(injected).Some? ==>
        result == old(injected) && injected.None? && used == 0 && Held() == old(Held())
      ensures old(injected).None? ==>
        && injected.None?
        && (Held(), if result.Some? then [result.value] else []) == Feed(old(Held()), readable[..used])
        && (result.None? ==> used == |readable|)
    {
      used := 0;
      if injected.Some? {
        result := injected;
        injected := None;
        return;
      }
      while used < |readable|
        invariant Valid() && used <= |readable| && injected.None?
        invariant Feed(old(Held()), readable[..used]) == (Held(), [])
      {
        assert readable[..used + 1] == readable[..used] + [readable[used]];
        FeedOneMore(old(Held()), readable[..used], readable[used]);
        result := Take(readable[used]);
        used := used + 1;
        if result.Some? {
          return;
        }
      }
      assert readable[..used] == readable;
      result := None;
    }

    /** The loop body: one byte. */
    method Take(c: char) returns (result: Option<string>)
      requires Valid()
      modifies this`idx, this`overflowed, line
      ensures Valid() && (Held(), result) == NextByte(old(Held()), c)
    {
      result := None;
      if c == '\r' || c == '\n' {
        if overflowed {
          idx := 0;
          overflowed := false;
        } else if idx != 0 {
          result := Some(line[..idx]);
          line[idx] := '\0';
          idx := 0;
        }
      } else if !overflowed {
        if idx < MaxLine - 1 {
          line[idx] := c;
          idx := idx + 1;
          assert line[..idx] == old(line[..idx]) + [c];
        } else {
          overflowed := true;
        }
      }
    }
  }

  lemma FeedOneMore(st: State, s: string, c: char)
    ensures var (mid, ls) := Feed(st, s);
      var (end, l) := NextByte(mid, c);
      && Feed(st, s + [c]) == (end, ls + if l.Some? then [l.value] else [])
      && (ls == [] ==> Feed(st, s + [c]).1 == if l.Some? then [l.value] else [])
  {
    FeedInTwo(st, s, [c]);
    var mid := Feed(st, s).0;
    assert [c][1..] == "";
    assert Feed(NextByte(mid, c).0, "") == (NextByte(mid, c).0, []);
    assert Feed(mid, [c]).1 == (if NextByte(mid, c).1.Some? then [NextByte(mid, c).1.value] else []);
  }
}
