/** The merged call-and-conference timeline: one total order, its unique listing, and why
    limiting two sources before merging them loses nothing of a page. */
module Timeline {

  datatype Kind = Call | Conference

  /** One row of the history: its instant (nanoseconds), and the call id or the conference
      UUID read as a big-endian number, which is how the database compares it. */
  datatype Entry = Entry(when: int, kind: Kind, id: int)

  /** The order of the page: time descending, a call before a conference, id descending. */
  predicate Newer(a: Entry, b: Entry) {
    || a.when > b.when
    || (a.when == b.when && a.kind.Call? && b.kind.Conference?)
    || (a.when == b.when && a.kind == b.kind && a.id > b.id)
  }

  function Elements(s: seq<Entry>): set<Entry> {
    set e | e in s
  }

  ghost predicate Ordered(s: seq<Entry>) {
    forall i, j | 0 <= i < j < |s| :: Newer(s[i], s[j])
  }

  function Min(a: nat, b: nat): nat {
    if a < b then a else b
  }

  // ---- the one listing of a set ----

  lemma {:induction false} OrderedSize(r: seq<Entry>)
    requires Ordered(r)
    ensures |Elements(r)| == |r|
  {
    if r != [] {
      var k := |r| - 1;
      OrderedSize(r[..k]);
      assert Elements(r) == Elements(r[..k]) + {r[k]};
    }
  }

  lemma {:induction false} ListingIsUnique(a: seq<Entry>, b: seq<Entry>)
    requires Ordered(a) && Ordered(b) && Elements(a) == Elements(b)
    ensures a == b
    decreases |a|
  {
    if a == [] {
      assert forall k | 0 <= k < |b| :: b[k] in Elements(b);
    } else {
      assert a[0] in Elements(b) && b != [];
      assert b[0] in Elements(a);
      assert a[0] == b[0];
      TailElements(a);
      TailElements(b);
      ListingIsUnique(a[1..], b[1..]);
    }
  }

  lemma TailElements(r: seq<Entry>)
    requires r != [] && Ordered(r)
    ensures Elements(r[1..]) == Elements(r) - {r[0]}
  {
    assert r == [r[0]] + r[1..];
    assert r[0] !in r[1..];
  }

  /** Where e belongs in an ordered slice. */
  function Place(s: seq<Entry>, e: Entry): (r: seq<Entry>)
    ensures |r| == |s| + 1
  {
    if s == [] || Newer(e, s[0]) then [e] + s else [s[0]] + Place(s[1..], e)
  }

  lemma {:induction false} PlaceKeepsOrder(s: seq<Entry>, e: Entry)
    requires Ordered(s) && e !in s
    ensures Ordered(Place(s, e)) && Elements(Place(s, e)) == Elements(s) + {e}
  {
    if s != [] && !Newer(e, s[0]) {
      var rest := Place(s[1..], e);
      PlaceKeepsOrder(s[1..], e);
      assert s == [s[0]] + s[1..];
      assert forall k | 0 <= k < |rest| :: rest[k] in Elements(rest);
      assert forall k | 0 <= k < |rest| :: rest[k] == e || rest[k] in s[1..];
    }
  }

  /** sort.Slice with the page's comparator; the entries are distinct. */
  method SortSlice(entries: seq<Entry>) returns (sorted: seq<Entry>)
    requires forall i, j | 0 <= i < j < |entries| :: entries[i] != entries[j]
    ensures sorted == Listing(Elements(entries)) && |sorted| == |entries|
  {
    sorted := [];
    for i := 0 to |entries|
      invariant Ordered(sorted) && Elements(sorted) == Elements(entries[..i]) && |sorted| == i
    {
      assert entries[..i + 1] == entries[..i] + [entries[i]];
      assert entries[i] !in Elements(entries[..i]);
      assert forall x | x in sorted :: x in Elements(sorted);
      PlaceKeepsOrder(sorted, entries[i]);
      sorted := Place(sorted, entries[i]);
    }
    assert entries[..|entries|] == entries;
    ListingIsUnique(sorted, Listing(Elements(entries)));
  }

  lemma {:induction false} ListingExists(s: set<Entry>)
    ensures exists r :: Ordered(r) && Elements(r) == s
  {
    if s == {} {
      assert Ordered([]) && Elements([]) == s;
    } else {
      var x :| x in s;
      ListingExists(s - {x});
      var r :| Ordered(r) && Elements(r) == s - {x};
      assert x !in Elements(r);
      PlaceKeepsOrder(r, x);
      assert Ordered(Place(r, x)) && Elements(Place(r, x)) == s;
    }
  }

  /** The elements of s, newest first: the only such sequence (ListingIsUnique). */
  ghost function Listing(s: set<Entry>): (r: seq<Entry>)
    ensures Ordered(r) && Elements(r) == s && |r| == |s|
  {
    ListingExists(s);
    var r :| Ordered(r) && Elements(r) == s;
    OrderedSize(r);
    r
  }

  // ---- its first n ----

  /** ORDER BY ... LIMIT n. */
  ghost function Take(s: set<Entry>, n: nat): seq<Entry> {
    Listing(s)[..Min(n, |s|)]
  }

  /** r lists n elements of s, or all of a smaller s, and leaves only older ones. */
  ghost predicate First(r: seq<Entry>, s: set<Entry>, n: nat) {
    && Ordered(r) && Elements(r) <= s
    && |r| == Min(n, |s|)
    && forall x, y | x in Elements(r) && y in s - Elements(r) :: Newer(x, y)
  }

  lemma TakeIsFirst(s: set<Entry>, n: nat)
    ensures First(Take(s, n), s, n)
  {
    var all, r := Listing(s), Take(s, n);
    assert all == r + all[|r|..];
    forall x, y | x in Elements(r) && y in s - Elements(r) ensures Newer(x, y) {
      assert y in Elements(all);
      var i :| 0 <= i < |r| && r[i] == x;
      var j :| 0 <= j < |all| && all[j] == y;
      assert y !in r && all[i] == x;
      assert r == all[..|r|];
    }
  }

  lemma ElementsOfConcat(a: seq<Entry>, b: seq<Entry>)
    ensures Elements(a + b) == Elements(a) + Elements(b)
  {
  }

  lemma FirstIsTake(r: seq<Entry>, s: set<Entry>, n: nat)
    requires First(r, s, n)
    ensures r == Take(s, n)
  {
    var rest := Listing(s - Elements(r));
    var all := r + rest;
    assert forall k | 0 <= k < |r| :: r[k] in Elements(r);
    assert forall k | 0 <= k < |rest| :: rest[k] in Elements(rest);
    ElementsOfConcat(r, rest);
    assert Elements(all) == s;
    forall p, q | 0 <= p < q < |all| ensures Newer(all[p], all[q]) {
      if p < |r| <= q {
        assert r[p] in Elements(r) && rest[q - |r|] in s - Elements(r);
      }
    }
    ListingIsUnique(all, Listing(s));
    assert all[..|r|] == r;
  }

  /** Limiting each source to at least n elements before merging loses nothing of the first n. */
  lemma MergeOfLimited(a: set<Entry>, b: set<Entry>, i: nat, j: nat, n: nat)
    requires n <= i && n <= j
    ensures Take(Elements(Take(a, i)) + Elements(Take(b, j)), n) == Take(a + b, n)
  {
    var ra, rb := Take(a, i), Take(b, j);
    var both := Elements(ra) + Elements(rb);
    var r := Take(both, n);
    TakeIsFirst(a, i);
    TakeIsFirst(b, j);
    TakeIsFirst(both, n);
    LimitedSize(a, b, i, j, n);
    forall x, y | x in Elements(r) && y in (a + b) - Elements(r) ensures Newer(x, y) {
      if y !in both {
        if y in a {
          LeftOutIsOlder(r, both, n, ra, a, i, x, y);
        } else {
          LeftOutIsOlder(r, both, n, rb, b, j, x, y);
        }
      }
    }
    assert First(r, a + b, n);
    FirstIsTake(r, a + b, n);
  }

  /** A source cut at i >= n can only hide what is older than the whole page. */
  lemma LeftOutIsOlder(r: seq<Entry>, both: set<Entry>, n: nat, ra: seq<Entry>, a: set<Entry>, i: nat, x: Entry, y: Entry)
    requires First(r, both, n) && First(ra, a, i) && n <= i && Elements(ra) <= both
    requires x in Elements(r) && y in a && y !in Elements(ra) && y !in Elements(r)
    ensures Newer(x, y)
  {
    OrderedSize(r);
    OrderedSize(ra);
    if !Newer(x, y) {
      forall z | z in Elements(ra) ensures z in Elements(r) && z != x {
        assert Newer(z, y);
        assert z in both - Elements(r) ==> Newer(x, z);
      }
      Smaller(Elements(ra) + {x}, Elements(r));
      Proper(Elements(ra), a);
    }
  }

  lemma {:induction false} Smaller(a: set<Entry>, b: set<Entry>)
    requires a <= b
    ensures |a| <= |b|
  {
    assert b == a + (b - a);
  }

  lemma Proper(a: set<Entry>, b: set<Entry>)
    requires a < b
    ensures |a| < |b|
  {
    assert b == a + (b - a) && b - a != {};
  }

  lemma LimitedSize(a: set<Entry>, b: set<Entry>, i: nat, j: nat, n: nat)
    requires n <= i && n <= j
    ensures Min(n, |Elements(Take(a, i)) + Elements(Take(b, j))|) == Min(n, |a + b|)
  {
    var la, lb := Elements(Take(a, i)), Elements(Take(b, j));
    TakeIsFirst(a, i);
    TakeIsFirst(b, j);
    OrderedSize(Take(a, i));
    OrderedSize(Take(b, j));
    Smaller(la, la + lb);
    Smaller(lb, la + lb);
    Smaller(la + lb, a + b);
    if |la + lb| < n {
      if la != a { Proper(la, a); }
      if lb != b { Proper(lb, b); }
    }
  }

  // ---- paging ----

  /** The entries strictly after position c. */
  ghost function After(s: set<Entry>, c: Entry): set<Entry> {
    set e | e in s && Newer(c, e)
  }

  /** What follows the first n is the listing of what is older than the n-th. */
  lemma TakeThenAfter(s: set<Entry>, n: nat)
    requires 0 < n <= |s|
    ensures var c := Take(s, n)[n - 1];
      && Listing(s) == Take(s, n) + Listing(After(s, c))
      && |After(s, c)| == |s| - n
  {
    var all := Listing(s);
    var rest := all[n..];
    var c := all[n - 1];
    assert all == all[..n] + rest;
    forall e | e in After(s, c) ensures e in rest {
      assert e in Elements(all);
      var k :| 0 <= k < |all| && all[k] == e;
      assert k >= n && rest[k - n] == e;
    }
    forall k | 0 <= k < |rest| ensures rest[k] in After(s, c) {
      assert rest[k] == all[n + k] && all[n + k] in Elements(all);
    }
    assert Ordered(rest) && Elements(rest) == After(s, c);
    ListingIsUnique(rest, Listing(After(s, c)));
  }
}
