/** The URL-safe base64 alphabet with padding (section 5 of RFC 4648), as Go's
    base64.URLEncoding encodes and decodes it. */
module Base64 {
  import opened Basics

  type Bytes = s: string | forall c | c in s :: c as int < 256

  type Sextet = v: int | 0 <= v < 64

  function Symbol(v: Sextet): char {
    if v < 26 then ('A' as int + v) as char
    else if v < 52 then ('a' as int + (v - 26)) as char
    else if v < 62 then ('0' as int + (v - 52)) as char
    else if v == 62 then '-'
    else '_'
  }

  function Value(c: char): Option<Sextet> {
    if 'A' <= c <= 'Z' then Some(c as int - 'A' as int)
    else if 'a' <= c <= 'z' then Some(c as int - 'a' as int + 26)
    else if '0' <= c <= '9' then Some(c as int - '0' as int + 52)
    else if c == '-' then Some(62)
    else if c == '_' then Some(63)
    else None
  }

  type Byte = b: int | 0 <= b < 256

  function Encode(s: Bytes): string {
    EncodeWith(Quad, s)
  }

  /** Three bytes at a time, the last group padded. */
  function EncodeWith(quad: Bytes -> string, s: Bytes): string {
    if s == "" then ""
    else if |s| <= 3 then quad(s)
    else quad(s[..3]) + EncodeWith(quad, s[3..])
  }

  function Quad(s: Bytes): string {
    if |s| == 1 then One(s[0] as int)
    else if |s| == 2 then Two(s[0] as int, s[1] as int)
    else if |s| == 3 then Three(s[0] as int, s[1] as int, s[2] as int)
    else ""
  }

  function One(a: Byte): string {
    [Symbol(a / 4), Symbol(a % 4 * 16), '=', '=']
  }

  function Two(a: Byte, b: Byte): string {
    [Symbol(a / 4), Symbol(a % 4 * 16 + b / 16), Symbol(b % 16 * 4), '=']
  }

  function Three(a: Byte, b: Byte, c: Byte): string {
    [Symbol(a / 4), Symbol(a % 4 * 16 + b / 16), Symbol(b % 16 * 4 + c / 64), Symbol(c % 64)]
  }

  /** The decoder skips line breaks wherever they are. */
  function Unbroken(s: string): string {
    if s == "" then "" else (if s[0] == '\r' || s[0] == '\n' then "" else [s[0]]) + Unbroken(s[1..])
  }

  /** Four symbols; padding is for the last quantum only, and spare bits are ignored. */
  function Quantum(q: string, last: bool): Option<Bytes> {
    if |q| != 4 then None
    else if q[2] == '=' && q[3] != '=' then None
    else if q[3] == '=' && !last then None
    else Joined(Value(q[0]), Value(q[1]), if q[2] == '=' then Pad else Six(Value(q[2])), if q[3] == '=' then Pad else Six(Value(q[3])))
  }

  datatype Slot = Pad | Six(value: Option<Sextet>)

  /** The bits of one quantum; a foreign symbol spoils it. */
  function Joined(v0: Option<Sextet>, v1: Option<Sextet>, v2: Slot, v3: Slot): Option<Bytes> {
    if v0.None? || v1.None? || v2 == Six(None) || v3 == Six(None) then None
    else
      var a: Byte := v0.value * 4 + v1.value / 16;
      if v2.Pad? then Some([a as char])
      else
        var b: Byte := v1.value % 16 * 16 + v2.value.value / 4;
        if v3.Pad? then Some([a as char, b as char])
        else
          var c: Byte := v2.value.value % 4 * 64 + v3.value.value;
          Some([a as char, b as char, c as char])
  }

  function Quanta(quantum: (string, bool) -> Option<Bytes>, s: string): Option<Bytes> {
    if s == "" then Some("")
    else if |s| < 4 then None
    else
      var first, rest := quantum(s[..4], |s| == 4), Quanta(quantum, s[4..]);
      if first.None? || rest.None? then None else Some(first.value + rest.value)
  }

  function Decode(s: string): Option<Bytes> {
    Quanta(Quantum, Unbroken(s))
  }

  lemma SymbolValue(v: Sextet)
    ensures Value(Symbol(v)) == Some(v)
    ensures UrlSafe(Symbol(v)) && Symbol(v) != '=' && Symbol(v) != '\r' && Symbol(v) != '\n'
  {
  }

  predicate UrlSafe(c: char) {
    'A' <= c <= 'Z' || 'a' <= c <= 'z' || '0' <= c <= '9' || c == '-' || c == '_' || c == '='
  }

  predicate AllUrlSafe(s: string) {
    forall c | c in s :: UrlSafe(c)
  }

  lemma {:induction false} EncodeIsUrlSafe(s: Bytes)
    ensures AllUrlSafe(Encode(s))
  {
    if 0 < |s| <= 3 {
      QuadIsUrlSafe(s);
    } else if s != "" {
      QuadIsUrlSafe(s[..3]);
      EncodeIsUrlSafe(s[3..]);
    }
  }

  lemma QuadIsUrlSafe(s: Bytes)
    ensures AllUrlSafe(Quad(s))
  {
    var a, b := if |s| > 0 then s[0] as int else 0, if |s| > 1 then s[1] as int else 0;
    SymbolValue(a / 4);
    SymbolValue(a % 4 * 16 + b / 16);
    SymbolValue(b % 16 * 4);
  }

  lemma {:induction false} UnbrokenKeeps(s: string)
    requires '\r' !in s && '\n' !in s
    ensures Unbroken(s) == s
  {
    if s != "" { UnbrokenKeeps(s[1..]); }
  }

  lemma SplitJoins(a: Byte, b: Byte, c: Byte)
    ensures Joined(Some(a / 4), Some(a % 4 * 16 + b / 16), Six(Some(b % 16 * 4 + c / 64)), Six(Some(c % 64)))
         == Some([a as char, b as char, c as char])
    ensures Joined(Some(a / 4), Some(a % 4 * 16 + b / 16), Six(Some(b % 16 * 4)), Pad) == Some([a as char, b as char])
    ensures Joined(Some(a / 4), Some(a % 4 * 16), Pad, Pad) == Some([a as char])
  {
  }

  lemma SymbolsJoin(q: string, last: bool, v0: Sextet, v1: Sextet, v2: Sextet, v3: Sextet)
    requires |q| == 4 && q[0] == Symbol(v0) && q[1] == Symbol(v1)
    ensures q[2] == Symbol(v2) && q[3] == Symbol(v3) ==>
      Quantum(q, last) == Joined(Some(v0), Some(v1), Six(Some(v2)), Six(Some(v3)))
    ensures q[2] == Symbol(v2) && q[3] == '=' ==>
      Quantum(q, last) == if last then Joined(Some(v0), Some(v1), Six(Some(v2)), Pad) else None
    ensures q[2] == '=' && q[3] == '=' ==>
      Quantum(q, last) == if last then Joined(Some(v0), Some(v1), Pad, Pad) else None
  {
    SymbolValue(v0);
    SymbolValue(v1);
    SymbolValue(v2);
    SymbolValue(v3);
  }

  lemma QuantumOfThree(a: Byte, b: Byte, c: Byte, last: bool)
    ensures Quantum(Three(a, b, c), last) == Some([a as char, b as char, c as char])
  {
    SymbolsJoin(Three(a, b, c), last, a / 4, a % 4 * 16 + b / 16, b % 16 * 4 + c / 64, c % 64);
    SplitJoins(a, b, c);
  }

  lemma QuantumOfTwo(a: Byte, b: Byte)
    ensures Quantum(Two(a, b), true) == Some([a as char, b as char])
  {
    SymbolsJoin(Two(a, b), true, a / 4, a % 4 * 16 + b / 16, b % 16 * 4, 0);
    SplitJoins(a, b, 0);
  }

  lemma QuantumOfOne(a: Byte)
    ensures Quantum(One(a), true) == Some([a as char])
  {
    SymbolsJoin(One(a), true, a / 4, a % 4 * 16, 0, 0);
    SplitJoins(a, 0, 0);
  }

  predicate Group(s: Bytes, last: bool) {
    |s| == 3 || (last && 0 < |s| < 3)
  }

  lemma QuantumOfQuad(s: Bytes, last: bool)
    requires Group(s, last)
    ensures |Quad(s)| == 4 && Quantum(Quad(s), last) == Some(s)
  {
    if |s| == 3 {
      QuantumOfThree(s[0] as int, s[1] as int, s[2] as int, last);
      assert s == [s[0], s[1], s[2]];
    } else if |s| == 2 {
      QuantumOfTwo(s[0] as int, s[1] as int);
      assert s == [s[0], s[1]];
    } else {
      QuantumOfOne(s[0] as int);
      assert s == [s[0]];
    }
  }

  lemma QuantaPrepend(quantum: (string, bool) -> Option<Bytes>, q: string, rest: string)
    requires |q| == 4 && quantum(q, rest == "").Some? && Quanta(quantum, rest).Some?
    ensures Quanta(quantum, q + rest) == Some(quantum(q, rest == "").value + Quanta(quantum, rest).value)
  {
    assert (q + rest)[..4] == q && (q + rest)[4..] == rest;
  }

  lemma {:induction false} QuantaOfEncode(quad: Bytes -> string, quantum: (string, bool) -> Option<Bytes>, s: Bytes)
    requires forall c: Bytes, last | Group(c, last) :: |quad(c)| == 4 && quantum(quad(c), last) == Some(c)
    ensures Quanta(quantum, EncodeWith(quad, s)) == Some(s)
    ensures s != "" ==> EncodeWith(quad, s) != ""
  {
    if |s| > 3 {
      var q, rest := quad(s[..3]), EncodeWith(quad, s[3..]);
      assert Group(s[..3], false);
      QuantaOfEncode(quad, quantum, s[3..]);
      QuantaPrepend(quantum, q, rest);
      assert s == s[..3] + s[3..];
    } else if s != "" {
      assert Group(s, true);
      QuantaPrepend(quantum, quad(s), "");
      assert quad(s) + "" == quad(s) && s + "" == s;
    }
  }

  lemma RoundTrip(s: Bytes)
    ensures Decode(Encode(s)) == Some(s)
  {
    EncodeIsUrlSafe(s);
    assert forall c | c in Encode(s) :: UrlSafe(c);
    UnbrokenKeeps(Encode(s));
    forall c: Bytes, last | Group(c, last)
      ensures |Quad(c)| == 4 && Quantum(Quad(c), last) == Some(c)
    {
      QuantumOfQuad(c, last);
    }
    QuantaOfEncode(Quad, Quantum, s);
  }
}
