/**
 * Keyset pages: at most 51 rows are fetched on one side of a cursor, the page is cut by count and
 * by bytes, and cursors lead on in both directions. The table may change between two fetches.
 */
module Pagination {
  import opened Common

  const PAGE_SIZE: nat := 50
  const FETCH_LIMIT: nat := 51
  const BYTE_BUDGET: nat := 7 * 1024 * 1024

  /** The sort columns and the identifier of a row, unique in its list and compared in page order. */
  type Key = Rank

  /** A listed row with the size of its JSON. */
  datatype Row = Row(key: Key, size: nat)

  /** The rows a list selects, by key. */
  type Table = map<Key, nat>

  datatype Cursor = Cursor(newer: bool, key: Key)

  datatype Page = Page(rows: seq<Row>, next: Option<Cursor>, previous: Option<Cursor>)

  // ---- fetching ----

  predicate Backward(cursor: Option<Cursor>) { cursor.Some? && cursor.value.newer }

  /** `b` comes after `a` in the direction of the scan. */
  predicate Before(newer: bool, a: Key, b: Key) { if newer then Precedes(b, a) else Precedes(a, b) }

  predicate Beyond(cursor: Option<Cursor>, k: Key) {
    cursor.None? || Before(cursor.value.newer, cursor.value.key, k)
  }

  function ScanRank(newer: bool, k: Key): Rank { if newer then (-k.0, -k.1, -k.2) else k }

  /** The rows a fetch ranges over, with their order in it. */
  function Candidates(table: Table, cursor: Option<Cursor>): map<Key, Rank> {
    map k | k in table && Beyond(cursor, k) :: RankBeyond(cursor, k)
  }

  function RankBeyond(cursor: Option<Cursor>, k: Key): Rank
    requires Beyond(cursor, k)
  {
    ScanRank(Backward(cursor), k)
  }

  function Keys(rows: seq<Row>): seq<Key> { seq(|rows|, i requires 0 <= i < |rows| => rows[i].key) }

  ghost predicate Fetched(table: Table, cursor: Option<Cursor>, rows: seq<Row>) {
    && IsFirst(Keys(rows), Candidates(table, cursor), FETCH_LIMIT)
    && forall i :: 0 <= i < |rows| ==> rows[i].key in table && table[rows[i].key] == rows[i].size
  }

  lemma FirstAreStored(table: Table, cursor: Option<Cursor>, keys: seq<Key>)
    requires IsFirst(keys, Candidates(table, cursor), FETCH_LIMIT)
    ensures forall i :: 0 <= i < |keys| ==> keys[i] in table
  {
    forall i | 0 <= i < |keys| ensures keys[i] in table {
      assert keys[i] in keys;
    }
  }

  method Fetch(table: Table, cursor: Option<Cursor>) returns (rows: seq<Row>)
    ensures Fetched(table, cursor, rows)
  {
    var keys := OrderedLimit(Candidates(table, cursor), FETCH_LIMIT);
    FirstAreStored(table, cursor, keys);
    hide IsFirst, Candidates;
    rows := seq(|keys|, i requires 0 <= i < |keys| => Row(keys[i], table[keys[i]]));
    assert Keys(rows) == keys;
  }

  // ---- cutting ----

  function Bytes(rows: seq<Row>): nat {
    if rows == [] then 0 else Bytes(rows[..|rows| - 1]) + rows[|rows| - 1].size
  }

  /** The longest prefix of at most 50 rows within the byte budget. */
  ghost predicate IsCut(rows: seq<Row>, count: nat) {
    && count <= |rows| && count <= PAGE_SIZE
    && Bytes(rows[..count]) <= BYTE_BUDGET
    && (count == |rows| || count == PAGE_SIZE || Bytes(rows[..count + 1]) > BYTE_BUDGET)
  }

  function Reversed(rows: seq<Row>): (r: seq<Row>)
    ensures |r| == |rows| && forall i :: 0 <= i < |r| ==> r[i] == rows[|rows| - 1 - i]
  {
    if rows == [] then [] else [rows[|rows| - 1]] + Reversed(rows[..|rows| - 1])
  }

  /** The page made of the first `count` fetched rows. */
  function PageOf(fetched: seq<Row>, count: nat, cursor: Option<Cursor>): Page
    requires count <= |fetched|
  {
    var newer, more := Backward(cursor), |fetched| > count;
    var rows := if newer then Reversed(fetched[..count]) else fetched[..count];
    Page(rows,
         if (newer || more) && rows != [] then Some(Cursor(false, rows[|rows| - 1].key)) else None,
         if (if newer then more else cursor.Some?) && rows != [] then Some(Cursor(true, rows[0].key)) else None)
  }

  /** An oversized first row is an error: there would be no page. */
  method MakePage(fetched: seq<Row>, cursor: Option<Cursor>) returns (page: Option<Page>)
    ensures page.None? <==> fetched != [] && fetched[0].size > BYTE_BUDGET
    ensures page.Some? ==> exists count: nat ::
      IsCut(fetched, count) && (fetched != [] ==> count > 0) && page.value == PageOf(fetched, count, cursor)
  {
    var size, count := 0, 0;
    assert fetched[..0] == [];
    while count < |fetched| && count < PAGE_SIZE && size + fetched[count].size <= BYTE_BUDGET
      invariant 0 <= count <= |fetched| && count <= PAGE_SIZE
      invariant size == Bytes(fetched[..count]) <= BYTE_BUDGET
      invariant count > 0 ==> fetched[0].size <= BYTE_BUDGET
    {
      assert fetched[..count + 1][..count] == fetched[..count];
      size := size + fetched[count].size;
      count := count + 1;
    }
    if fetched != [] && count == 0 { return None; }
    if count < |fetched| && count < PAGE_SIZE { assert fetched[..count + 1][..count] == fetched[..count]; }
    assert IsCut(fetched, count);
    var more := |fetched| > count;
    var rows := fetched[..count];
    var newer := cursor.Some? && cursor.value.newer;
    if newer { rows := Reversed(rows); }
    var previous, next := None, None;
    if ((newer && more) || (!newer && cursor.Some?)) && rows != [] { previous := Some(Cursor(true, rows[0].key)); }
    if ((!newer && more) || newer) && rows != [] { next := Some(Cursor(false, rows[|rows| - 1].key)); }
    page := Some(Page(rows, next, previous));
  }

  ghost predicate IsPage(table: Table, cursor: Option<Cursor>, page: Page) {
    exists fetched: seq<Row>, count: nat ::
      PageFrom(table, cursor, fetched, count) && page == PageOf(fetched, count, cursor)
  }

  ghost predicate PageFrom(table: Table, cursor: Option<Cursor>, fetched: seq<Row>, count: nat) {
    count <= |fetched| && Fetched(table, cursor, fetched) && IsCut(fetched, count) && (fetched != [] ==> count > 0)
  }

  /** The first row in the direction of the scan. */
  predicate Nearest(table: Table, cursor: Option<Cursor>, k: Key) {
    && k in table && Beyond(cursor, k)
    && forall j :: j in table && Beyond(cursor, j) ==> j == k || Before(Backward(cursor), k, j)
  }

  /** The first fetched row is the nearest one, and nothing is fetched only if there is none. */
  lemma FetchedFirst(table: Table, cursor: Option<Cursor>, rows: seq<Row>)
    requires Fetched(table, cursor, rows)
    ensures rows != [] ==> Nearest(table, cursor, rows[0].key) && table[rows[0].key] == rows[0].size
    ensures rows == [] ==> forall k :: k in table ==> !Beyond(cursor, k)
    ensures forall j, k :: Nearest(table, cursor, j) && Nearest(table, cursor, k) ==> j == k
  {
    var keys, rank := Keys(rows), Candidates(table, cursor);
    assert forall k :: k in rank <==> k in table && Beyond(cursor, k);
    if rows == [] {
      ShortBatchTakesAll(keys, rank, FETCH_LIMIT);
    } else {
      assert keys[0] in keys;
      forall j | j in table && Beyond(cursor, j) && j != keys[0] ensures Before(Backward(cursor), keys[0], j) {
        if j in keys { var i :| 0 <= i < |keys| && keys[i] == j; }
        assert !Precedes(rank[j], rank[keys[0]]);
      }
    }
  }

  /** One request: fetch, then cut. */
  method ListPage(table: Table, cursor: Option<Cursor>) returns (page: Option<Page>)
    ensures page.Some? ==> IsPage(table, cursor, page.value)
    ensures page.None? <==> exists k :: Nearest(table, cursor, k) && table[k] > 7 * 1024 * 1024
  {
    var fetched := Fetch(table, cursor);
    page := MakePage(fetched, cursor);
    if page.Some? {
      ghost var count: nat :| IsCut(fetched, count) && (fetched != [] ==> count > 0)
              && page.value == PageOf(fetched, count, cursor);
      assert PageFrom(table, cursor, fetched, count);
    }
    FetchedFirst(table, cursor, fetched);
    hide Fetched, IsPage, Nearest;
  }
}
