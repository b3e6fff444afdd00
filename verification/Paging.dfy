/**
 * Reading the archive page by page (`derived/reader.py`): each page asks for the ids
 * above the largest one so far.
 */
module Paging {
  import opened Order

  /** Messages one read asks for at a time. */
  const PAGE_SIZE: nat := 2000

  datatype Row = Row(id: Text, columns: nat)

  /** Ordered by the canonical id, which no two rows share. */
  predicate Ordered(table: seq<Row>) {
    forall i, j | 0 <= i < j < |table| :: table[i].id < table[j].id
  }

  /** `WHERE m.id > $after`, in the table's order. */
  function After(table: seq<Row>, after: Text): seq<Row> {
    if table == [] then []
    else
      var last := table[|table| - 1];
      After(table[..|table| - 1], after) + if last.id > after then [last] else []
  }

  /** … `LIMIT $limit`. */
  function Page(table: seq<Row>, after: Text, limit: nat): (r: seq<Row>)
    ensures |r| <= limit
  {
    var rows := After(table, after);
    if |rows| <= limit then rows else rows[..limit]
  }

  lemma {:induction false} AfterAll(table: seq<Row>, after: Text)
    requires forall i | 0 <= i < |table| :: table[i].id > after
    ensures After(table, after) == table
  {
    if table != [] {
      AfterAll(table[..|table| - 1], after);
      assert table == table[..|table| - 1] + [table[|table| - 1]];
    }
  }

  lemma {:induction false} AfterNone(table: seq<Row>, after: Text)
    requires forall i | 0 <= i < |table| :: table[i].id <= after
    ensures After(table, after) == []
  {
    if table != [] {
      AfterNone(table[..|table| - 1], after);
    }
  }

  lemma {:induction false} AfterConcat(a: seq<Row>, b: seq<Row>, after: Text)
    ensures After(a + b, after) == After(a, after) + After(b, after)
    decreases |b|
  {
    if b == [] {
      assert a + b == a;
    } else {
      AfterConcat(a, b[..|b| - 1], after);
      assert (a + b)[..|a + b| - 1] == a + b[..|b| - 1];
    }
  }

  lemma {:induction false} AfterKeepsOrder(table: seq<Row>, after: Text)
    requires Ordered(table)
    ensures Ordered(After(table, after))
    ensures forall i | 0 <= i < |After(table, after)| ::
              After(table, after)[i].id > after && After(table, after)[i] in table
  {
    if table != [] {
      var n := |table| - 1;
      AfterKeepsOrder(table[..n], after);
      var rest := After(table[..n], after);
      forall i | 0 <= i < |rest| ensures rest[i].id < table[n].id {
        assert rest[i] in table[..n];
      }
    }
  }

  lemma {:induction false} AfterTwice(table: seq<Row>, first: Text, then': Text)
    requires first <= then'
    ensures After(After(table, first), then') == After(table, then')
    decreases |table|
  {
    if table != [] {
      var n := |table| - 1;
      AfterTwice(table[..n], first, then');
      AfterConcat(After(table[..n], first), if table[n].id > first then [table[n]] else [], then');
      assert After([table[n]], then') == if table[n].id > then' then [table[n]] else [];
    }
  }

  lemma AfterSplit(a: seq<Row>, b: seq<Row>, cursor: Text)
    requires forall i | 0 <= i < |a| :: a[i].id <= cursor
    requires forall i | 0 <= i < |b| :: b[i].id > cursor
    ensures After(a + b, cursor) == b
  {
    AfterConcat(a, b, cursor);
    AfterNone(a, cursor);
    AfterAll(b, cursor);
    assert [] + b == b;
  }

  /** What is read so far and what is still above it are all there is. */
  lemma NextPage(rows: seq<Row>, k: nat)
    requires Ordered(rows) && 0 < k <= |rows|
    ensures After(rows, rows[k - 1].id) == rows[k..]
  {
    var a, b := rows[..k], rows[k..];
    assert rows == a + b;
    forall i | 0 <= i < |a| ensures a[i].id <= rows[k - 1].id {
      assert a[i] == rows[i];
    }
    forall i | 0 <= i < |b| ensures b[i].id > rows[k - 1].id {
      assert b[i] == rows[k + i];
    }
    AfterSplit(a, b, rows[k - 1].id);
  }

  /** At most `ceiling` rows; zero or less means all of them. */
  function Capped(rows: seq<Row>, ceiling: int): seq<Row> {
    if ceiling <= 0 || |rows| <= ceiling then rows else rows[..ceiling]
  }

  /** The rows read so far and the cursor after them. */
  ghost predicate Cursor(rows: seq<Row>, read: nat, after: Text) {
    read <= |rows| && after == if read == 0 then EMPTY else rows[read - 1].id
  }

  lemma PageFrom(table: seq<Row>, rows: seq<Row>, read: nat, after: Text, limit: nat)
    requires Ordered(table) && rows == After(table, EMPTY) && Cursor(rows, read, after)
    ensures Page(table, after, limit) == if |rows| - read <= limit then rows[read..] else rows[read..read + limit]
  {
    AfterKeepsOrder(table, EMPTY);
    AfterTwice(table, EMPTY, after);
    AboveCursor(rows, read, after);
    Cutting(rows, read, limit);
  }

  lemma Cutting(rows: seq<Row>, read: nat, limit: nat)
    requires read <= |rows|
    ensures limit <= |rows| - read ==> rows[read..][..limit] == rows[read..read + limit]
  {}

  lemma AboveCursor(rows: seq<Row>, read: nat, after: Text)
    requires Ordered(rows) && Cursor(rows, read, after) && forall i | 0 <= i < |rows| :: rows[i].id > EMPTY
    ensures After(rows, after) == rows[read..]
  {
    if read > 0 {
      NextPage(rows, read);
    } else {
      AfterAll(rows, EMPTY);
    }
  }

  /** One page more. */
  lemma PageRead(rows: seq<Row>, read: nat, page: seq<Row>, limit: nat)
    requires read <= |rows| && page == if |rows| - read <= limit then rows[read..] else rows[read..read + limit]
    ensures |page| <= limit && read + |page| <= |rows| && rows[..read] + page == rows[..read + |page|]
    ensures |page| < limit ==> read + |page| == |rows|
    ensures page != [] ==> Cursor(rows, read + |page|, page[|page| - 1].id)
  {}

  /** Exactly the first `ceiling` rows that have an id, whatever the page size cuts. */
  method Paged(table: seq<Row>, ceiling: int) returns (read: seq<Row>)
    requires Ordered(table)
    ensures read == Capped(After(table, EMPTY), ceiling)
  {
    ghost var rows := After(table, EMPTY);
    var after := EMPTY;
    read := [];
    while true
      invariant |read| <= |rows| && read == rows[..|read|] && (ceiling > 0 ==> |read| <= ceiling)
      invariant Cursor(rows, |read|, after)
      decreases |rows| - |read|
    {
      var limit: int := if ceiling <= 0 || PAGE_SIZE <= ceiling - |read| then PAGE_SIZE else ceiling - |read|;
      if limit <= 0 {
        return;
      }
      PageFrom(table, rows, |read|, after, limit);
      var page := Page(table, after, limit);
      PageRead(rows, |read|, page, limit);
      read := read + page;
      if |page| < limit {
        return;
      }
      after := page[|page| - 1].id;
    }
  }

  lemma {:induction false} AfterIds(table: seq<Row>, after: Text)
    ensures forall i | 0 <= i < |After(table, after)| ::
              After(table, after)[i].id > after
  {
    if table != [] {
      AfterIds(table[..|table| - 1], after);
    }
  }

  /** Rows without an id are the only ones passed over: the read is complete exactly when every row has one. */
  lemma ReadsEveryIdentifiedRow(table: seq<Row>)
    ensures Capped(After(table, EMPTY), 0) == table <==> forall i | 0 <= i < |table| :: table[i].id != EMPTY
  {
    AfterIds(table, EMPTY);
    if forall i | 0 <= i < |table| :: table[i].id != EMPTY {
      AfterAll(table, EMPTY);
    }
  }

  ghost predicate SameIds(a: seq<Row>, b: seq<Row>) {
    |a| == |b| && forall i | 0 <= i < |a| :: a[i].id == b[i].id
  }

  lemma {:induction false} AfterSameIds(a: seq<Row>, b: seq<Row>, after: Text)
    requires SameIds(a, b)
    ensures SameIds(After(a, after), After(b, after))
    decreases |a|
  {
    if a != [] {
      AfterSameIds(a[..|a| - 1], b[..|b| - 1], after);
    }
  }

  /** Two reads over one archive, paged apart, cover the same messages under any ceiling. */
  lemma ReadsCoverTheSame(properties: seq<Row>, relations: seq<Row>, ceiling: int)
    requires SameIds(properties, relations)
    ensures SameIds(Capped(After(properties, EMPTY), ceiling), Capped(After(relations, EMPTY), ceiling))
  {
    AfterSameIds(properties, relations, EMPTY);
  }

  /** `_batched`: chunks of at most `size`, in order. */
  function Flatten<T>(batches: seq<seq<T>>): seq<T> {
    if batches == [] then [] else Flatten(batches[..|batches| - 1]) + batches[|batches| - 1]
  }

  method Batched<T>(items: seq<T>, size: nat) returns (batches: seq<seq<T>>)
    requires size > 0
    ensures Flatten(batches) == items
    ensures forall i | 0 <= i < |batches| :: 0 < |batches[i]| <= size
    ensures forall i | 0 <= i < |batches| - 1 :: |batches[i]| == size
  {
    batches := [];
    var start: nat := 0;
    while start < |items|
      invariant Flatten(batches) == items[..if start <= |items| then start else |items|]
      invariant forall i | 0 <= i < |batches| :: 0 < |batches[i]| <= size
      invariant start <= |items| ==> forall i | 0 <= i < |batches| :: |batches[i]| == size
      invariant start > |items| ==> forall i | 0 <= i < |batches| - 1 :: |batches[i]| == size
    {
      var stop := if start + size <= |items| then start + size else |items|;
      assert items[..start] + items[start..stop] == items[..stop];
      assert (batches + [items[start..stop]])[..|batches|] == batches;
      batches := batches + [items[start..stop]];
      start := start + size;
    }
    assert items[..|items|] == items;
  }
}
