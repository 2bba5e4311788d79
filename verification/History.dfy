/** The call-history page: two filtered and limited queries, merged, truncated, and followed
    from page to page by cursor tokens. */
module History {
  import opened Basics
  import opened Timeline
  import opened Uuids
  import opened HistoryCursor
  import Instants

  datatype CallRow = CallRow(id: int, caller: string, callee: string, startedAt: Instants.Instant, endReason: Option<string>)

  datatype ConferenceRow = ConferenceRow(id: nat, members: set<string>, createdAt: Instants.Instant)

  // ---- the WHERE clauses ----

  predicate CallShown(row: CallRow, phones: seq<string>) {
    (row.caller in phones || row.callee in phones) && row.endReason != Some("merged_to_conference")
  }

  predicate ConferenceShown(row: ConferenceRow, phones: seq<string>) {
    exists p | p in phones :: p in row.members
  }

  /** The calls query's cursor condition. A call precedes a same-time conference, so after a
      conference only earlier calls are left. */
  predicate CallPasses(cursor: Option<Entry>, row: CallRow) {
    match cursor
    case None => true
    case Some(c) =>
      match c.kind
      case Call => row.startedAt < c.when || (row.startedAt == c.when && row.id < c.id)
      case Conference => row.startedAt < c.when
  }

  /** The conferences query's: after a call its same-time conferences are still to come. */
  predicate ConferencePasses(cursor: Option<Entry>, row: ConferenceRow) {
    match cursor
    case None => true
    case Some(c) =>
      match c.kind
      case Call => row.createdAt <= c.when
      case Conference => row.createdAt < c.when || (row.createdAt == c.when && row.id < c.id)
  }

  function OfCall(row: CallRow): Entry {
    Entry(row.startedAt, Call, row.id)
  }

  function OfConference(row: ConferenceRow): Entry {
    Entry(row.createdAt, Conference, row.id)
  }

  // ---- the timeline the page is a slice of ----

  /** The tables; ids are primary keys. */
  datatype Tables = Tables(calls: seq<CallRow>, conferences: seq<ConferenceRow>)

  ghost predicate ValidTables(t: Tables) {
    && (forall i, j | 0 <= i < j < |t.calls| :: t.calls[i].id != t.calls[j].id)
    && (forall i, j | 0 <= i < j < |t.conferences| :: t.conferences[i].id != t.conferences[j].id)
    && (forall r | r in t.calls :: ValidEntry(OfCall(r)))
    && (forall r | r in t.conferences :: ValidEntry(OfConference(r)))
  }

  function CallEntries(rows: seq<CallRow>, phones: seq<string>): set<Entry> {
    set r | r in rows && CallShown(r, phones) :: OfCall(r)
  }

  function ConferenceEntries(rows: seq<ConferenceRow>, phones: seq<string>): set<Entry> {
    set r | r in rows && ConferenceShown(r, phones) :: OfConference(r)
  }

  function Everything(t: Tables, phones: seq<string>): (s: set<Entry>)
    ensures ValidTables(t) ==> AllValid(s)
  {
    CallEntries(t.calls, phones) + ConferenceEntries(t.conferences, phones)
  }

  ghost function From(s: set<Entry>, cursor: Option<Entry>): set<Entry> {
    if cursor.None? then s else After(s, cursor.value)
  }

  /** The two SQL conditions together say "strictly after the cursor". */
  lemma CursorConditions(cursor: Option<Entry>, call: CallRow, conference: ConferenceRow)
    ensures CallPasses(cursor, call) <==> cursor.None? || Newer(cursor.value, OfCall(call))
    ensures ConferencePasses(cursor, conference) <==> cursor.None? || Newer(cursor.value, OfConference(conference))
  {
  }

  /** The server's comparator works on UUID text and the database on UUID values; both are
      the timeline's order. */
  predicate Comparator(a: Entry, b: Entry)
    requires ValidEntry(a) && ValidEntry(b)
  {
    if a.when == b.when then
      if a.kind != b.kind then a.kind.Call?
      else if a.kind.Call? then a.id > b.id
      else Less(Text(b.id), Text(a.id))
    else a.when > b.when
  }

  lemma ComparatorIsNewer(a: Entry, b: Entry)
    requires ValidEntry(a) && ValidEntry(b)
    ensures Comparator(a, b) <==> Newer(a, b)
  {
    if a.kind.Conference? && b.kind.Conference? { TextOrder(b.id, a.id); }
  }

  // ---- the queries ----

  ghost predicate DistinctEntries(s: seq<Entry>) {
    forall i, j | 0 <= i < j < |s| :: s[i] != s[j]
  }

  lemma Append(found: seq<Entry>, e: Entry)
    requires DistinctEntries(found) && e !in Elements(found)
    ensures DistinctEntries(found + [e]) && Elements(found + [e]) == Elements(found) + {e}
  {
    assert forall k | 0 <= k < |found| :: found[k] in Elements(found);
  }

  lemma CallStep(rows: seq<CallRow>, i: nat, phones: seq<string>, cursor: Option<Entry>)
    requires i < |rows| && forall j, k | 0 <= j < k < |rows| :: rows[j].id != rows[k].id
    ensures From(CallEntries(rows[..i + 1], phones), cursor) ==
      From(CallEntries(rows[..i], phones), cursor)
      + (if CallShown(rows[i], phones) && CallPasses(cursor, rows[i]) then {OfCall(rows[i])} else {})
    ensures OfCall(rows[i]) !in From(CallEntries(rows[..i], phones), cursor)
  {
    assert rows[..i + 1] == rows[..i] + [rows[i]];
    assert CallEntries(rows[..i + 1], phones) ==
      CallEntries(rows[..i], phones) + (if CallShown(rows[i], phones) then {OfCall(rows[i])} else {});
  }

  method RecentCalls(rows: seq<CallRow>, phones: seq<string>, cursor: Option<Entry>, limit: nat)
    returns (page: seq<Entry>)
    requires forall i, j | 0 <= i < j < |rows| :: rows[i].id != rows[j].id
    ensures page == Take(From(CallEntries(rows, phones), cursor), limit)
  {
    var found: seq<Entry> := [];
    for i := 0 to |rows|
      invariant Elements(found) == From(CallEntries(rows[..i], phones), cursor)
      invariant DistinctEntries(found)
    {
      CallStep(rows, i, phones, cursor);
      if CallShown(rows[i], phones) && CallPasses(cursor, rows[i]) {
        Append(found, OfCall(rows[i]));
        found := found + [OfCall(rows[i])];
      }
    }
    assert rows[..|rows|] == rows;
    var sorted := SortSlice(found);
    page := if |sorted| > limit then sorted[..limit] else sorted;
  }

  lemma ConferenceStep(rows: seq<ConferenceRow>, i: nat, phones: seq<string>, cursor: Option<Entry>)
    requires i < |rows| && forall j, k | 0 <= j < k < |rows| :: rows[j].id != rows[k].id
    ensures From(ConferenceEntries(rows[..i + 1], phones), cursor) ==
      From(ConferenceEntries(rows[..i], phones), cursor)
      + (if ConferenceShown(rows[i], phones) && ConferencePasses(cursor, rows[i]) then {OfConference(rows[i])} else {})
    ensures OfConference(rows[i]) !in From(ConferenceEntries(rows[..i], phones), cursor)
  {
    assert rows[..i + 1] == rows[..i] + [rows[i]];
    assert ConferenceEntries(rows[..i + 1], phones) ==
      ConferenceEntries(rows[..i], phones) + (if ConferenceShown(rows[i], phones) then {OfConference(rows[i])} else {});
  }

  method RecentConferences(rows: seq<ConferenceRow>, phones: seq<string>, cursor: Option<Entry>, limit: nat)
    returns (page: seq<Entry>)
    requires forall i, j | 0 <= i < j < |rows| :: rows[i].id != rows[j].id
    ensures page == Take(From(ConferenceEntries(rows, phones), cursor), limit)
  {
    var found: seq<Entry> := [];
    for i := 0 to |rows|
      invariant Elements(found) == From(ConferenceEntries(rows[..i], phones), cursor)
      invariant DistinctEntries(found)
    {
      ConferenceStep(rows, i, phones, cursor);
      if ConferenceShown(rows[i], phones) && ConferencePasses(cursor, rows[i]) {
        Append(found, OfConference(rows[i]));
        found := found + [OfConference(rows[i])];
      }
    }
    assert rows[..|rows|] == rows;
    var sorted := SortSlice(found);
    page := if |sorted| > limit then sorted[..limit] else sorted;
  }

  /** A page is exactly the first limit+1 entries strictly after the cursor. */
  method RecentHistoryForPhones(t: Tables, phones: seq<string>, cursor: Option<Cursor>, limit: nat)
    returns (r: Result<seq<Entry>>)
    requires ValidTables(t)
    ensures phones == [] ==> r == Ok([])
    ensures phones != [] && cursor.None? ==> r == Ok(Take(Everything(t, phones), limit + 1))
    ensures phones != [] && cursor.Some? ==>
      r == (match Position(cursor.value)
            case Err(e) => Err(e)
            case Ok(c) => Ok(Take(After(Everything(t, phones), c), limit + 1)))
  {
    if |phones| == 0 {
      return Ok([]);
    }
    var at: Option<Entry> := None;
    if cursor.Some? {
      var position := Position(cursor.value);
      if position.Err? {
        return Err(position.error);
      }
      at := Some(position.value);
    }
    var entries := OnePage(t, phones, at, limit);
    r := Ok(entries);
  }

  /** Both queries, one entry more than the limit each, merged and cut. */
  method OnePage(t: Tables, phones: seq<string>, at: Option<Entry>, limit: nat) returns (entries: seq<Entry>)
    requires ValidTables(t)
    ensures entries == Take(From(Everything(t, phones), at), limit + 1)
  {
    var calls := RecentCalls(t.calls, phones, at, limit + 1);
    var conferences := RecentConferences(t.conferences, phones, at, limit + 1);
    BothLimited(t, phones, at, limit + 1);
    entries := Merge(calls, conferences, limit + 1);
  }

  method Merge(calls: seq<Entry>, conferences: seq<Entry>, n: nat) returns (entries: seq<Entry>)
    requires DistinctEntries(calls + conferences)
    ensures entries == Take(Elements(calls) + Elements(conferences), n)
  {
    ElementsOfConcat(calls, conferences);
    entries := SortSlice(calls + conferences);
    if |entries| > n {
      entries := entries[..n];
    }
  }

  lemma BothLimited(t: Tables, phones: seq<string>, at: Option<Entry>, n: nat)
    ensures var calls := Take(From(CallEntries(t.calls, phones), at), n);
      var conferences := Take(From(ConferenceEntries(t.conferences, phones), at), n);
      && DistinctEntries(calls + conferences)
      && Take(Elements(calls) + Elements(conferences), n) == Take(From(Everything(t, phones), at), n)
  {
    var a, b := From(CallEntries(t.calls, phones), at), From(ConferenceEntries(t.conferences, phones), at);
    NoSharedEntry(a, b, n);
    FromBoth(CallEntries(t.calls, phones), ConferenceEntries(t.conferences, phones), at);
    MergeOfLimited(a, b, n, n, n);
  }

  lemma FromBoth(a: set<Entry>, b: set<Entry>, at: Option<Entry>)
    ensures From(a + b, at) == From(a, at) + From(b, at)
  {
  }

  lemma NoSharedEntry(a: set<Entry>, b: set<Entry>, n: nat)
    requires (forall e | e in a :: e.kind == Call) && (forall e | e in b :: e.kind == Conference)
    ensures DistinctEntries(Take(a, n) + Take(b, n))
  {
    var calls, conferences := Take(a, n), Take(b, n);
    TakeIsFirst(a, n);
    TakeIsFirst(b, n);
    assert forall k | 0 <= k < |calls| :: calls[k] in Elements(calls);
    assert forall k | 0 <= k < |conferences| :: conferences[k] in Elements(conferences);
  }

  // ---- the handler's page, and walking the pages ----

  datatype Page = Page(entries: seq<Entry>, older: string)

  ghost predicate AllValid(s: set<Entry>) {
    forall e | e in s :: ValidEntry(e)
  }

  /** With an entry, remaining holds everything of s that is older. */
  ghost predicate ClosedBelow(s: set<Entry>, remaining: set<Entry>) {
    remaining <= s && forall e, f | e in remaining && f in s && Newer(e, f) :: f in remaining
  }

  /** The entries a token leaves to show. */
  ghost function Remaining(s: set<Entry>, before: string): (r: Result<set<Entry>>)
    ensures r.Ok? ==> r.value <= s && ClosedBelow(s, r.value)
  {
    match DecodeCursor(before)
    case Err(e) => Err(e)
    case Ok(None) => Ok(s)
    case Ok(Some(c)) =>
      match Position(c)
      case Err(e) => Err(e)
      case Ok(position) => Ok(After(s, position))
  }

  /** The page of what remains, and the token of its last entry when there is more. */
  ghost function PageOf(remaining: set<Entry>, size: nat): Page
    requires size > 0 && AllValid(remaining)
  {
    var shown := Take(remaining, size);
    TakeIsFirst(remaining, size);
    if |remaining| > size then
      assert shown[size - 1] in Elements(shown);
      Page(shown, EncodeCursor(CursorForEntry(shown[size - 1])))
    else Page(shown, "")
  }

  /** handleCalls: a page one entry too long shows that an older page exists. */
  method HandleCalls(t: Tables, phones: seq<string>, before: string, size: nat) returns (r: Result<Page>)
    requires ValidTables(t) && size > 0
    ensures phones != [] ==>
      r == (match Remaining(Everything(t, phones), before)
            case Err(e) => Err(e)
            case Ok(remaining) => Ok(PageOf(remaining, size)))
    ensures phones == [] ==> r == if DecodeCursor(before).Err? then Err(DecodeCursor(before).error) else Ok(Page([], ""))
  {
    var cursor := DecodeCursor(before);
    if cursor.Err? {
      return Err(cursor.error);
    }
    if |phones| == 0 {
      return Ok(Page([], ""));
    }
    var history := RecentHistoryForPhones(t, phones, cursor.value, size);
    if history.Err? {
      return Err(history.error);
    }
    var page := CutPage(history.value, Remaining(Everything(t, phones), before).value, size);
    r := Ok(page);
  }

  /** The extra entry only tells that there is more. */
  method CutPage(history: seq<Entry>, ghost remaining: set<Entry>, size: nat) returns (page: Page)
    requires size > 0 && AllValid(remaining) && history == Take(remaining, size + 1)
    ensures page == PageOf(remaining, size)
  {
    if |history| > size {
      LastShown(remaining, size);
      page := Page(history[..size], EncodeCursor(CursorForEntry(history[size - 1])));
    } else {
      assert history == Take(remaining, size);
      page := Page(history, "");
    }
  }

  lemma LastShown(remaining: set<Entry>, size: nat)
    requires size > 0 && |remaining| > size && AllValid(remaining)
    ensures Take(remaining, size + 1)[..size] == Take(remaining, size)
    ensures ValidEntry(Take(remaining, size)[size - 1])
    ensures PageOf(remaining, size) == Page(Take(remaining, size), EncodeCursor(CursorForEntry(Take(remaining, size)[size - 1])))
  {
    TakeIsFirst(remaining, size);
    assert Take(remaining, size)[size - 1] in Elements(Take(remaining, size));
  }

  lemma TokenLeadsOn(s: set<Entry>, e: Entry)
    requires ValidEntry(e)
    ensures var token := EncodeCursor(CursorForEntry(e));
      token != "" && Remaining(s, token) == Ok(After(s, e))
  {
    EntryRoundTrip(e);
  }

  /** Nothing of s after `last` is missing from what remains. */
  lemma NothingSkipped(s: set<Entry>, remaining: set<Entry>, last: Entry)
    requires last in remaining && ClosedBelow(s, remaining)
    ensures After(s, last) == After(remaining, last)
  {
  }

  /** Following a page's token leaves exactly the entries after that page. */
  lemma NextPage(s: set<Entry>, before: string, size: nat)
    requires size > 0 && AllValid(s) && Remaining(s, before).Ok?
    ensures var remaining := Remaining(s, before).value;
      var page := PageOf(remaining, size);
      && (page.older == "" <==> |remaining| <= size)
      && (page.older == "" ==> page.entries == Listing(remaining))
      && (page.older != "" ==>
            && |page.entries| == size
            && Remaining(s, page.older).Ok?
            && |Remaining(s, page.older).value| == |remaining| - size
            && Listing(remaining) == page.entries + Listing(Remaining(s, page.older).value))
  {
    var remaining := Remaining(s, before).value;
    if |remaining| > size {
      LastShown(remaining, size);
      var last := Take(remaining, size)[size - 1];
      TakeIsFirst(remaining, size);
      TokenLeadsOn(s, last);
      assert last in Elements(Take(remaining, size));
      NothingSkipped(s, remaining, last);
      TakeThenAfter(remaining, size);
    } else {
      assert Take(remaining, size) == Listing(remaining);
    }
  }

  /** All the pages from a token on, end to end. */
  ghost function Walk(s: set<Entry>, before: string, size: nat): seq<Entry>
    requires size > 0 && AllValid(s) && Remaining(s, before).Ok?
    decreases |Remaining(s, before).value|
  {
    var page := PageOf(Remaining(s, before).value, size);
    NextPage(s, before, size);
    if page.older == "" then page.entries else page.entries + Walk(s, page.older, size)
  }

  lemma {:induction false} WalkIsTheListing(s: set<Entry>, before: string, size: nat)
    requires size > 0 && AllValid(s) && Remaining(s, before).Ok?
    ensures Walk(s, before, size) == Listing(Remaining(s, before).value)
    decreases |Remaining(s, before).value|
  {
    NextPage(s, before, size);
    var page := PageOf(Remaining(s, before).value, size);
    if page.older != "" {
      WalkIsTheListing(s, page.older, size);
    }
  }

  /** Following the older links from the first page ends, and shows every entry exactly
      once, newest first. */
  lemma WalkVisitsEverythingOnce(t: Tables, phones: seq<string>, size: nat)
    requires ValidTables(t) && size > 0
    ensures var s := Everything(t, phones);
      && Walk(s, "", size) == Listing(s)
      && Elements(Walk(s, "", size)) == s
      && (forall i, j | 0 <= i < j < |Walk(s, "", size)| :: Walk(s, "", size)[i] != Walk(s, "", size)[j])
  {
    WalkIsTheListing(Everything(t, phones), "", size);
  }
}
