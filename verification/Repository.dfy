/** The queries over `attack_events`: filters, pages and counts on one snapshot of the table. */
module Repository {
  import opened Events

  datatype Filter = Filter(protocol: Option<string>, sourceIp: Option<string>, since: Option<int>, until: Option<int>)

  predicate Matches(row: Row, f: Filter) {
    (f.protocol.Some? ==> row.event.protocol == f.protocol.value) &&
    (f.sourceIp.Some? ==> row.event.sourceIp == f.sourceIp.value) &&
    (f.since.Some? ==> row.event.timestamp >= f.since.value) &&
    (f.until.Some? ==> row.event.timestamp <= f.until.value)
  }

  /** The filter of the aggregate queries. */
  function Between(since: Option<int>, until: int): Filter {
    Filter(None, None, since, Some(until))
  }

  /** The matching rows, in table order. */
  function Where(rows: seq<Row>, p: Row -> bool): (found: seq<Row>)
    ensures |found| <= |rows|
  {
    if rows == [] then []
    else (if p(rows[0]) then [rows[0]] else []) + Where(rows[1..], p)
  }

  function Found(rows: seq<Row>, f: Filter): seq<Row> {
    Where(rows, row => Matches(row, f))
  }

  function Count(rows: seq<Row>, p: Row -> bool): nat {
    |Where(rows, p)|
  }

  lemma {:induction false} WhereSelects(rows: seq<Row>, p: Row -> bool)
    ensures forall row :: row in Where(rows, p) <==> row in rows && p(row)
  {
    if rows != [] {
      WhereSelects(rows[1..], p);
      assert rows == [rows[0]] + rows[1..];
    }
  }

  lemma FoundSelects(rows: seq<Row>, f: Filter)
    ensures forall row :: row in Found(rows, f) <==> row in rows && Matches(row, f)
  {
    WhereSelects(rows, row => Matches(row, f));
  }

  lemma CountFirst(rows: seq<Row>, p: Row -> bool)
    requires rows != []
    ensures Count(rows, p) == (if p(rows[0]) then 1 else 0) + Count(rows[1..], p)
  {}

  lemma CountNone(p: Row -> bool)
    ensures Count([], p) == 0
  {}

  lemma {:induction false} CountConcat(a: seq<Row>, b: seq<Row>, p: Row -> bool)
    ensures Count(a + b, p) == Count(a, p) + Count(b, p)
  {
    hide Count, Where;
    CountNone(p);
    if a == [] {
      assert a + b == b;
    } else {
      CountFirst(a, p);
      CountFirst(a + b, p);
      CountConcat(a[1..], b, p);
      assert (a + b)[1..] == a[1..] + b;
    }
  }

  /** The places of the rows that satisfy a condition. */
  function Places(rows: seq<Row>, p: Row -> bool): set<nat> {
    set i: nat | i < |rows| && p(rows[i])
  }

  /** A count is the number of places where the condition holds. */
  lemma {:induction false} CountIsSize(rows: seq<Row>, p: Row -> bool)
    ensures Count(rows, p) == |Places(rows, p)|
  {
    if rows != [] {
      var n := |rows| - 1;
      CountIsSize(rows[..n], p);
      assert rows == rows[..n] + [rows[n]];
      CountConcat(rows[..n], [rows[n]], p);
      CountFirst([rows[n]], p);
      assert Places(rows, p) == Places(rows[..n], p) + if p(rows[n]) then {n} else {};
    }
  }

  /** A stronger condition selects from what a weaker one selects. */
  lemma {:induction false} WhereTwice(rows: seq<Row>, p: Row -> bool, q: Row -> bool, both: Row -> bool)
    requires forall row | row in rows :: both(row) == (p(row) && q(row))
    ensures Where(Where(rows, p), q) == Where(rows, both)
  {
    if rows != [] {
      assert rows[0] in rows && forall row | row in rows[1..] :: row in rows;
      WhereTwice(rows[1..], p, q, both);
      if p(rows[0]) {
        assert Where(rows, p)[1..] == Where(rows[1..], p);
      } else {
        assert Where(rows, p) == Where(rows[1..], p);
      }
    }
  }

  lemma {:induction false} CountMonotone(rows: seq<Row>, p: Row -> bool, q: Row -> bool)
    requires forall row | row in rows && p(row) :: q(row)
    ensures Count(rows, p) <= Count(rows, q)
  {
    if rows != [] {
      assert rows[0] in rows && forall row | row in rows[1..] :: row in rows;
      CountMonotone(rows[1..], p, q);
    }
  }

  /** Counting alternatives that exclude each other; nothing is left over exactly when one always holds. */
  lemma {:induction false} CountSplits(rows: seq<Row>, p: Row -> bool, q: Row -> bool)
    requires forall row | row in rows :: !(p(row) && q(row))
    ensures Count(rows, p) + Count(rows, q) <= |rows|
    ensures Count(rows, p) + Count(rows, q) == |rows| <==> forall row | row in rows :: p(row) || q(row)
  {
    if rows != [] {
      assert rows == [rows[0]] + rows[1..];
      assert forall row | row in rows :: row == rows[0] || row in rows[1..];
      CountSplits(rows[1..], p, q);
    }
  }
}
