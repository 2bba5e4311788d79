/** The page cursor of the call history and its opaque token. */
module HistoryCursor {
  import opened Basics
  import opened Base64
  import opened Decimals
  import opened Instants
  import opened Uuids
  import opened Timeline

  datatype Result<+T> = Ok(value: T) | Err(error: Error)

  datatype Error = BadBase64 | BadFieldCount | BadTime | BadKind | EmptyID | BadCallID | BadConferenceID

  datatype Cursor = Cursor(when: Instant, kind: Kind, id: Bytes)

  function KindCode(k: Kind): string {
    match k case Call => "c" case Conference => "f"
  }

  function ParseKindCode(s: string): Option<Kind> {
    if s == "c" then Some(Call) else if s == "f" then Some(Conference) else None
  }

  function Plain(c: Cursor): (s: Bytes)
    ensures s != ""
  {
    FormatIsPlain(c.when);
    Format(c.when) + ("|" + (KindCode(c.kind) + ("|" + c.id)))
  }

  function EncodeCursor(c: Cursor): string {
    Base64.Encode(Plain(c))
  }

  /** Splits at the first bar. */
  function Cut(s: string): Option<(string, string)> {
    if s == "" then None
    else if s[0] == '|' then Some(("", s[1..]))
    else
      var rest := Cut(s[1..]);
      if rest.None? then None else Some(([s[0]] + rest.value.0, rest.value.1))
  }

  /** The empty token is no cursor at all. */
  function DecodeCursor(token: string): Result<Option<Cursor>> {
    if token == "" then Ok(None)
    else
      var raw := Base64.Decode(token);
      if raw.None? then Err(BadBase64) else ReadFields(raw.value)
  }

  function ReadFields(raw: Bytes): Result<Option<Cursor>> {
    match CutFields(raw)
    case None => Err(BadFieldCount)
    case Some((when, kind, id)) => ReadParts(when, kind, id)
  }

  /** The three fields; the last keeps any further bar. */
  function CutFields(raw: Bytes): Option<(string, string, Bytes)> {
    match Cut(raw)
    case None => None
    case Some((when, rest)) =>
      CutKeepsBytes(raw);
      match Cut(rest)
      case None => None
      case Some((kind, id)) =>
        CutKeepsBytes(rest);
        Some((when, kind, id))
  }

  function ReadParts(when: string, kind: string, id: Bytes): Result<Option<Cursor>> {
    var t, k := Instants.Parse(when), ParseKindCode(kind);
    if t.None? then Err(BadTime)
    else if k.None? then Err(BadKind)
    else if id == "" then Err(EmptyID)
    else Ok(Some(Cursor(t.value, k.value, id)))
  }

  lemma {:induction false} CutKeepsBytes(s: Bytes)
    requires Cut(s).Some?
    ensures forall c | c in Cut(s).value.0 :: c as int < 256
    ensures forall c | c in Cut(s).value.1 :: c as int < 256
  {
    if s[0] != '|' { CutKeepsBytes(s[1..]); }
  }

  lemma {:induction false} CutAtBar(a: string, b: string)
    requires '|' !in a
    ensures Cut(a + ("|" + b)) == Some((a, b))
  {
    var s := a + ("|" + b);
    if a == "" {
      assert s[1..] == b;
    } else {
      assert s[1..] == a[1..] + ("|" + b);
      CutAtBar(a[1..], b);
      assert a == [a[0]] + a[1..];
    }
  }

  predicate PlainChar(c: char) {
    c as int < 256 && c != '|'
  }

  predicate AllPlain(s: string) {
    forall c | c in s :: PlainChar(c)
  }

  lemma PlainTogether(a: string, b: string)
    requires AllPlain(a) && AllPlain(b)
    ensures AllPlain(a + b)
  {
  }

  lemma FormatIsPlain(t: Instant)
    ensures AllPlain(Format(t))
  {
    var c := CivilOf(t);
    var s0 := Fraction(c.nano) + "Z";
    FractionIsPlain(c.nano);
    var s1 := Fixed(c.second, 2) + s0;
    PlainTogether(Fixed(c.second, 2), s0);
    var s2 := Fixed(c.minute, 2) + (":" + s1);
    PlainTogether(Fixed(c.minute, 2), ":" + s1);
    var s3 := Fixed(c.hour, 2) + (":" + s2);
    PlainTogether(Fixed(c.hour, 2), ":" + s2);
    var s4 := Fixed(c.day, 2) + ("T" + s3);
    PlainTogether(Fixed(c.day, 2), "T" + s3);
    var s5 := Fixed(c.month, 2) + ("-" + s4);
    PlainTogether(Fixed(c.month, 2), "-" + s4);
    PlainTogether(Padded(c.year, 4), "-" + s5);
  }

  lemma FractionIsPlain(nano: nat)
    ensures AllPlain(Fraction(nano))
  {
    if nano != 0 {
      TrimKeepsNanos(Fixed(nano, 9));
      assert forall c | c in Trim(Fixed(nano, 9)) :: IsDigit(c);
    }
  }

  /** A cursor comes back from its token exactly when it names an id and its year has four
      digits; otherwise the token is refused, never misread. */
  lemma CursorRoundTrip(c: Cursor)
    ensures DecodeCursor(EncodeCursor(c)) ==
      if CivilOf(c.when).year > 9999 then Err(BadTime)
      else if c.id == "" then Err(EmptyID)
      else Ok(Some(c))
  {
    Base64.RoundTrip(Plain(c));
    TokenIsNotEmpty(Plain(c));
    FieldsRoundTrip(c);
  }

  lemma TokenIsNotEmpty(s: Bytes)
    requires s != ""
    ensures Base64.Encode(s) != ""
  {
    Base64.RoundTrip(s);
    Base64.RoundTrip("");
  }

  lemma FieldsRoundTrip(c: Cursor)
    ensures ReadFields(Plain(c)) ==
      if CivilOf(c.when).year > 9999 then Err(BadTime)
      else if c.id == "" then Err(EmptyID)
      else Ok(Some(c))
  {
    FieldsAreCut(c);
    ReadsWhatIsCut(Plain(c), Format(c.when), KindCode(c.kind), c.id);
    PartsAreRead(c.when, Format(c.when), c.kind, c.id);
  }

  lemma ReadsWhatIsCut(raw: Bytes, when: string, kind: string, id: Bytes)
    requires CutFields(raw) == Some((when, kind, id))
    ensures ReadFields(raw) == ReadParts(when, kind, id)
  {
  }

  lemma PartsAreRead(t: Instant, when: string, kind: Kind, id: Bytes)
    requires when == Format(t)
    ensures ReadParts(when, KindCode(kind), id) ==
      if CivilOf(t).year > 9999 then Err(BadTime)
      else if id == "" then Err(EmptyID)
      else Ok(Some(Cursor(t, kind, id)))
  {
    ParsesOrNot(t);
  }

  lemma FieldsAreCut(c: Cursor)
    ensures CutFields(Plain(c)) == Some((Format(c.when), KindCode(c.kind), c.id))
  {
    FormatIsPlain(c.when);
    assert '|' !in Format(c.when) by { assert !PlainChar('|'); }
    CutAtBar(Format(c.when), KindCode(c.kind) + ("|" + c.id));
    CutAtBar(KindCode(c.kind), c.id);
  }

  lemma ParsesOrNot(t: Instant)
    ensures Instants.Parse(Format(t)) == if CivilOf(t).year > 9999 then None else Some(t)
  {
    FormatRoundTrip(t);
  }

  // ---- cursors of entries ----

  /** What the schema holds: 64-bit call ids, 128-bit UUIDs, years of four digits. */
  predicate ValidEntry(e: Entry) {
    && e.when >= 0 && CivilOf(e.when).year <= 9999
    && (e.kind.Call? ==> MinInt64 <= e.id <= MaxInt64)
    && (e.kind.Conference? ==> 0 <= e.id < Pow16(32))
  }

  function CursorForEntry(e: Entry): (c: Cursor)
    requires ValidEntry(e)
  {
    match e.kind
    case Call =>
      assert AllDigits(FormatInt(e.id)[1..]);
      Cursor(e.when, Call, FormatInt(e.id))
    case Conference =>
      TextIsPlain(e.id);
      Cursor(e.when, Conference, Text(e.id))
  }

  lemma TextIsPlain(id: nat)
    ensures AllPlain(Text(id)) && Text(id) != ""
  {
    var h := Hex(id, 32);
    assert forall c | c in h :: IsHex(c);
    assert forall c | c in Dashed(h) :: c == '-' || c in h;
  }

  /** Where in the timeline a cursor points: the queries read its id back. */
  function Position(c: Cursor): Result<Entry> {
    match c.kind
    case Call =>
      var id := ParseInt(c.id);
      if id.None? then Err(BadCallID) else Ok(Entry(c.when, Call, id.value))
    case Conference =>
      var id := ParseText(c.id);
      if id.None? then Err(BadConferenceID) else Ok(Entry(c.when, Conference, id.value))
  }

  /** The token of an entry leads back to that very position. */
  lemma EntryRoundTrip(e: Entry)
    requires ValidEntry(e)
    ensures EncodeCursor(CursorForEntry(e)) != ""
    ensures DecodeCursor(EncodeCursor(CursorForEntry(e))) == Ok(Some(CursorForEntry(e)))
    ensures Position(CursorForEntry(e)) == Ok(e)
  {
    var c := CursorForEntry(e);
    match e.kind {
      case Call => IntRoundTrip(e.id);
      case Conference =>
        TextIsPlain(e.id);
        TextRoundTrip(e.id);
    }
    CursorRoundTrip(c);
    assert EncodeCursor(c) == "" ==> DecodeCursor(EncodeCursor(c)) == Ok(None);
  }
}
