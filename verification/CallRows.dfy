/** The database rows against the in-memory tables. */
module CallRows {
  import opened Basics
  import opened CallModel
  import opened CallRoles

  /** Whatever writes were lost: every call in memory has its open row. */
  ghost predicate CallRowsOk(c: CallTable, d: Database) {
    && d.nextID >= 1
    && (forall id | id in d.calls :: 1 <= id < d.nextID)
    && (forall p | p in c :: c[p] in d.calls && d.calls[c[p]] == CallRow(p.caller, p.callee, true))
  }

  ghost function RowPair(d: Database, id: nat): Pair
    requires id in d.calls
  {
    Pair(d.calls[id].caller, d.calls[id].callee)
  }

  /** And conversely: every open row is a call in memory. */
  ghost predicate CallRowsExact(c: CallTable, d: Database) {
    forall id | id in d.calls && d.calls[id].open :: RowPair(d, id) in c && c[RowPair(d, id)] == id
  }

  ghost predicate ConfRowsOk(t: ConfTable, nextConf: nat, d: Database) {
    && (forall id | id in d.confs :: id < nextConf)
    && (forall id | id in t.active :: id in d.confs
          && d.confs[id] == ConfRow(t.active[id].host, t.active[id].originating, t.active[id].members.Keys, true))
  }

  ghost predicate ConfRowsExact(t: ConfTable, d: Database) {
    forall id | id in d.confs && d.confs[id].open :: id in t.active
  }

  /** With both directions the ids in memory are exactly the open rows. */
  lemma OpenRowsAreTheCalls(c: CallTable, d: Database)
    requires CallRowsOk(c, d) && CallRowsExact(c, d)
    ensures c.Values == OpenRows(d)
  {
    forall id | id in c.Values ensures id in OpenRows(d) {
      var p :| p in c && c[p] == id;
    }
    forall id | id in OpenRows(d) ensures id in c.Values {
      assert RowPair(d, id) in c && c[RowPair(d, id)] == id;
    }
  }

  lemma IDsAreDistinct(c: CallTable, d: Database, p: Pair, q: Pair)
    requires CallRowsOk(c, d) && p in c && q in c && c[p] == c[q]
    ensures p == q
  {
  }

  lemma StartRows(c: CallTable, d: Database, p: Pair)
    requires CallRowsOk(c, d) && p !in c
    ensures CallRowsOk(c[p := d.nextID], InsertCall(d, p.caller, p.callee))
    ensures CallRowsExact(c, d) ==> CallRowsExact(c[p := d.nextID], InsertCall(d, p.caller, p.callee))
  {
    var c', d' := c[p := d.nextID], InsertCall(d, p.caller, p.callee);
    if CallRowsExact(c, d) {
      forall id | id in d'.calls && d'.calls[id].open
        ensures RowPair(d', id) in c' && c'[RowPair(d', id)] == id
      {
        if id != d.nextID { assert RowPair(d', id) == RowPair(d, id); }
      }
    }
  }

  /** The row EndLatest closes, if any, belongs to the pair. */
  lemma EndLatestClosesOne(d: Database, a: Number, b: Number) returns (ids: set<nat>)
    ensures ids <= OpenBetween(d, a, b)
    ensures EndLatest(d, a, b) == CloseRows(d, ids)
    ensures ids == {} <==> OpenBetween(d, a, b) == {}
  {
    var open := OpenBetween(d, a, b);
    if open == {} {
      ids := {};
      assert CloseRows(d, {}) == d;
    } else {
      MaxExists(open);
      var latest :| latest in open && forall j | j in open :: j <= latest;
      ids := {latest};
    }
  }

  lemma EndRowsOk(c: CallTable, d: Database, a: Number, b: Number)
    requires CallRowsOk(c, d)
    ensures CallRowsOk(c - {Pair(a, b), Pair(b, a)}, d)
    ensures CallRowsOk(c - {Pair(a, b), Pair(b, a)}, EndLatest(d, a, b))
  {
    var ids := EndLatestClosesOne(d, a, b);
  }

  lemma EndRowsExact(c: CallTable, index: map<Number, nat>, d: Database, a: Number, b: Number)
    requires CallRowsOk(c, d) && CallRowsExact(c, d) && CallersTakeNoCall(c)
    ensures CallRowsExact(c - {Pair(a, b), Pair(b, a)}, EndLatest(d, a, b))
  {
    var ids := EndLatestClosesOne(d, a, b);
    var d' := EndLatest(d, a, b);
    forall i, j | i in OpenBetween(d, a, b) && j in OpenBetween(d, a, b) ensures i == j {
      assert RowPair(d, i) in c && RowPair(d, j) in c;
    }
    forall id | id in d'.calls && d'.calls[id].open
      ensures RowPair(d', id) in c - {Pair(a, b), Pair(b, a)} && c[RowPair(d', id)] == id
    {
      assert id !in ids && d.calls[id].open && RowPair(d', id) == RowPair(d, id);
      assert forall j | j in ids :: id in OpenBetween(d, a, b) ==> j == id;
      assert ids != {} <==> OpenBetween(d, a, b) != {};
    }
  }

  lemma ClearRows(c: CallTable, d: Database, n: Number)
    requires CallRowsOk(c, d)
    ensures var c' := map p | p in c && !Involves(p, n) :: c[p];
      && CallRowsOk(c', d) && CallRowsOk(c', EndAllOf(d, n))
      && (CallRowsExact(c, d) ==> CallRowsExact(c', EndAllOf(d, n)))
  {
    var c' := map p | p in c && !Involves(p, n) :: c[p];
    var d' := EndAllOf(d, n);
    if CallRowsExact(c, d) {
      forall id | id in d'.calls && d'.calls[id].open
        ensures RowPair(d', id) in c' && c'[RowPair(d', id)] == id
      {
        assert d.calls[id].open && RowPair(d', id) == RowPair(d, id);
      }
    }
  }

  /** Closing the rows of exactly the calls that leave memory keeps both directions. */
  lemma CloseLeavingRows(c: CallTable, c': CallTable, d: Database, ids: set<nat>)
    requires CallRowsOk(c, d)
    requires forall p | p in c' :: p in c && c'[p] == c[p] && c[p] !in ids
    requires forall p | p in c && p !in c' :: c[p] in ids
    ensures CallRowsOk(c', CloseRows(d, ids))
    ensures CallRowsExact(c, d) ==> CallRowsExact(c', CloseRows(d, ids))
  {
    var d' := CloseRows(d, ids);
    if CallRowsExact(c, d) {
      forall id | id in d'.calls && d'.calls[id].open
        ensures RowPair(d', id) in c' && c'[RowPair(d', id)] == id
      {
        assert d.calls[id].open && RowPair(d', id) == RowPair(d, id);
      }
    }
  }
}
