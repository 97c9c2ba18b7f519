/** Walking through pages: nothing that stays is skipped or shown twice, and one can go back and forth. */
module Navigation {
  import opened Common
  import opened Pagination

  // ---- what a fetch returns ----

  lemma KeyOrder(newer: bool, a: Key, b: Key)
    requires a != b && !Precedes(ScanRank(newer, b), ScanRank(newer, a))
    ensures Before(newer, a, b)
  {
  }

  /** Rows come in scan order, beyond the cursor, and a row passed over comes after all of them. */
  ghost predicate InScanOrder(newer: bool, rows: seq<Row>) {
    forall i, j :: 0 <= i < j < |rows| ==> Before(newer, rows[i].key, rows[j].key)
  }

  predicate Shows(rows: seq<Row>, k: Key) { exists i :: 0 <= i < |rows| && rows[i].key == k }

  ghost predicate AllBefore(newer: bool, rows: seq<Row>, k: Key) {
    forall i :: 0 <= i < |rows| ==> Before(newer, rows[i].key, k)
  }

  lemma FetchedInOrder(table: Table, cursor: Option<Cursor>, rows: seq<Row>)
    requires Fetched(table, cursor, rows)
    ensures InScanOrder(Backward(cursor), rows)
    ensures forall i :: 0 <= i < |rows| ==>
              rows[i].key in table && Beyond(cursor, rows[i].key) && rows[i].size == table[rows[i].key]
    ensures |rows| <= FETCH_LIMIT
  {
    var keys := Keys(rows);
    assert forall i :: 0 <= i < |rows| ==> keys[i] == rows[i].key;
    forall i, j | 0 <= i < j < |rows| ensures Before(Backward(cursor), rows[i].key, rows[j].key) {
      assert keys[i] in keys && keys[j] in keys && keys[i] != keys[j];
      assert !Precedes(Candidates(table, cursor)[keys[j]], Candidates(table, cursor)[keys[i]]);
      KeyOrder(Backward(cursor), keys[i], keys[j]);
    }
    forall i | 0 <= i < |rows| ensures rows[i].key in table && Beyond(cursor, rows[i].key) {
      assert keys[i] in keys;
    }
  }

  lemma FetchedMisses(table: Table, cursor: Option<Cursor>, rows: seq<Row>, k: Key)
    requires Fetched(table, cursor, rows) && k in table && Beyond(cursor, k) && !Shows(rows, k)
    ensures |rows| == FETCH_LIMIT && AllBefore(Backward(cursor), rows, k)
  {
    var keys, rank := Keys(rows), Candidates(table, cursor);
    assert k in rank && k !in keys;
    if |keys| < FETCH_LIMIT { ShortBatchTakesAll(keys, rank, FETCH_LIMIT); }
    forall i | 0 <= i < |rows| ensures Before(Backward(cursor), rows[i].key, k) {
      assert keys[i] in keys && keys[i] == rows[i].key && keys[i] in rank;
      KeyOrder(Backward(cursor), keys[i], k);
    }
  }

  // ---- what a page shows ----

  lemma {:induction false} BytesOfPrefix(rows: seq<Row>, m: nat, n: nat)
    requires m <= n <= |rows|
    ensures Bytes(rows[..m]) <= Bytes(rows[..n])
    decreases n - m
  {
    if m < n {
      BytesOfPrefix(rows, m, n - 1);
      assert rows[..n][..n - 1] == rows[..n - 1];
    }
  }

  lemma CutIsUnique(rows: seq<Row>, m: nat, n: nat)
    requires IsCut(rows, m) && IsCut(rows, n)
    ensures m == n
  {
    if m < n { BytesOfPrefix(rows, m + 1, n); }
    if n < m { BytesOfPrefix(rows, n + 1, m); }
  }

  lemma {:induction false} BytesSplit(a: seq<Row>, b: seq<Row>)
    ensures Bytes(a + b) == Bytes(a) + Bytes(b)
    decreases |b|
  {
    if b == [] {
      assert a + b == a;
    } else {
      BytesSplit(a, b[..|b| - 1]);
      assert (a + b)[..|a + b| - 1] == a + b[..|b| - 1];
    }
  }

  lemma {:induction false} BytesReversed(rows: seq<Row>)
    ensures Bytes(Reversed(rows)) == Bytes(rows)
    decreases |rows|
  {
    if rows != [] {
      var init, last := rows[..|rows| - 1], rows[|rows| - 1];
      BytesReversed(init);
      BytesSplit([last], Reversed(init));
      assert Bytes([last]) == last.size by { assert [last][..0] == []; }
    }
  }

  /** The cursor that continues a scan. */
  function Onward(newer: bool, page: Page): Option<Cursor> { if newer then page.previous else page.next }

  /** A page is bounded, in list order, and not empty while any row is left in its direction. */
  lemma PageIsBounded(table: Table, cursor: Option<Cursor>, page: Page)
    requires IsPage(table, cursor, page)
    ensures |page.rows| <= 50 && Bytes(page.rows) <= 7 * 1024 * 1024
    ensures (exists k :: k in table && Beyond(cursor, k)) ==> page.rows != []
    ensures InScanOrder(false, page.rows)
    ensures forall i :: 0 <= i < |page.rows| ==>
              && page.rows[i].key in table && table[page.rows[i].key] == page.rows[i].size
              && Beyond(cursor, page.rows[i].key)
  {
    hide Bytes, Reversed, Candidates, IsFirst, Precedes;
    var fetched: seq<Row>, count: nat :| PageFrom(table, cursor, fetched, count)
      && page == PageOf(fetched, count, cursor);
    FetchedInOrder(table, cursor, fetched);
    BytesReversed(fetched[..count]);
    if k :| k in table && Beyond(cursor, k) && fetched == [] {
      FetchedMisses(table, cursor, fetched, k);
    }
  }

  /**
   * Every row beyond the cursor is either shown or left to the onward cursor, which starts after
   * the last row shown.
   */
  lemma PageContinues(table: Table, cursor: Option<Cursor>, page: Page, k: Key)
    requires IsPage(table, cursor, page)
    ensures k in table && Beyond(cursor, k) && !Shows(page.rows, k) ==>
            Onward(Backward(cursor), page).Some? && Beyond(Onward(Backward(cursor), page), k)
    ensures Shows(page.rows, k) ==> k in table && Beyond(cursor, k)
    ensures Shows(page.rows, k) && Onward(Backward(cursor), page).Some? ==> !Beyond(Onward(Backward(cursor), page), k)
    ensures Onward(Backward(cursor), page).Some? ==> Onward(Backward(cursor), page).value.newer == Backward(cursor)
    ensures Onward(Backward(cursor), page).Some? && cursor.Some? ==>
            Beyond(cursor, Onward(Backward(cursor), page).value.key)
  {
    hide Fetched, IsCut, PageOf, Shows;
    var fetched: seq<Row>, count: nat :| PageFrom(table, cursor, fetched, count)
      && page == PageOf(fetched, count, cursor);
    FetchedInOrder(table, cursor, fetched);
    ShownInPrefix(fetched, count, cursor, k);
    OnwardOf(fetched, count, cursor);
    if Shows(page.rows, k) {
      ShownNotBeyond(fetched, count, Backward(cursor), k);
      ShownIn(fetched, count, k);
    } else if k in table && Beyond(cursor, k) {
      CutLeavesRest(table, cursor, fetched, count, k);
    }
  }

  lemma ShownIn(fetched: seq<Row>, count: nat, k: Key)
    requires count <= |fetched| && Shows(fetched[..count], k)
    ensures exists i :: 0 <= i < |fetched| && fetched[i].key == k
  {
  }

  lemma ShownNotBeyond(fetched: seq<Row>, count: nat, newer: bool, k: Key)
    requires count <= |fetched| && InScanOrder(newer, fetched) && Shows(fetched[..count], k)
    ensures count > 0 && !Before(newer, fetched[count - 1].key, k)
  {
    var i :| 0 <= i < count && fetched[i].key == k;
    if i < count - 1 { assert Before(newer, fetched[i].key, fetched[count - 1].key); }
  }

  lemma CutLeavesRest(table: Table, cursor: Option<Cursor>, fetched: seq<Row>, count: nat, k: Key)
    requires PageFrom(table, cursor, fetched, count) && k in table && Beyond(cursor, k) && !Shows(fetched[..count], k)
    ensures |fetched| > count > 0 && Before(Backward(cursor), fetched[count - 1].key, k)
  {
    hide Fetched;
    FetchedInOrder(table, cursor, fetched);
    assert forall i :: 0 <= i < count ==> fetched[i] == fetched[..count][i] && fetched[i].key != k;
    if i :| 0 <= i < |fetched| && fetched[i].key == k {
    } else {
      FetchedMisses(table, cursor, fetched, k);
    }
  }

  lemma ShownInPrefix(fetched: seq<Row>, count: nat, cursor: Option<Cursor>, k: Key)
    requires count <= |fetched|
    ensures Shows(PageOf(fetched, count, cursor).rows, k) <==> Shows(fetched[..count], k)
  {
    var rows := fetched[..count];
    if i :| 0 <= i < |rows| && rows[i].key == k {
      assert Reversed(rows)[|rows| - 1 - i].key == k;
    }
  }

  lemma OnwardOf(fetched: seq<Row>, count: nat, cursor: Option<Cursor>)
    requires count <= |fetched|
    ensures Onward(Backward(cursor), PageOf(fetched, count, cursor)) ==
            if |fetched| > count > 0 then Some(Cursor(Backward(cursor), fetched[count - 1].key)) else None
  {
  }

  // ---- walks ----

  /** One request of a walk: the table it met, the cursor it used, the page it got. */
  datatype Visit = Visit(table: Table, cursor: Option<Cursor>, page: Page)

  ghost predicate VisitAt(newer: bool, walk: seq<Visit>, n: nat) {
    && n < |walk|
    && IsPage(walk[n].table, walk[n].cursor, walk[n].page)
    && Backward(walk[n].cursor) == newer
    && (n > 0 ==> walk[n].cursor.Some? && walk[n].cursor == Onward(newer, walk[n - 1].page))
  }

  /** A walk in one direction, to its end, over a table that may change between any two requests. */
  ghost predicate IsWalk(newer: bool, walk: seq<Visit>) {
    && walk != []
    && (forall n :: 0 <= n < |walk| ==> VisitAt(newer, walk, n))
    && Onward(newer, walk[|walk| - 1].page).None?
  }

  ghost predicate Persists(walk: seq<Visit>, k: Key) {
    forall n :: 0 <= n < |walk| ==> k in walk[n].table
  }

  lemma {:induction false} NotYetPassed(newer: bool, walk: seq<Visit>, k: Key, n: nat)
    requires IsWalk(newer, walk) && Persists(walk, k) && Beyond(walk[0].cursor, k) && n < |walk|
    ensures Beyond(walk[n].cursor, k) || exists m :: 0 <= m < n && Shows(walk[m].page.rows, k)
    decreases n
  {
    if n > 0 {
      NotYetPassed(newer, walk, k, n - 1);
      assert VisitAt(newer, walk, n - 1) && VisitAt(newer, walk, n);
      PageContinues(walk[n - 1].table, walk[n - 1].cursor, walk[n - 1].page, k);
    }
  }

  lemma BeyondAdds(c: Cursor, d: Cursor, k: Key)
    requires c.newer == d.newer && Beyond(Some(c), d.key) && Beyond(Some(d), k)
    ensures Beyond(Some(c), k)
  {
  }

  /** What a later request may show lies beyond every earlier onward cursor. */
  lemma {:induction false} CursorsMoveOn(newer: bool, walk: seq<Visit>, m: nat, n: nat, k: Key)
    requires IsWalk(newer, walk) && m < n < |walk| && Beyond(walk[n].cursor, k)
    ensures walk[m + 1].cursor.Some? && Beyond(walk[m + 1].cursor, k)
    decreases n - m
  {
    hide IsPage;
    assert VisitAt(newer, walk, n);
    if m + 1 < n {
      assert VisitAt(newer, walk, n - 1);
      PageContinues(walk[n - 1].table, walk[n - 1].cursor, walk[n - 1].page, k);
      BeyondAdds(walk[n - 1].cursor.value, walk[n].cursor.value, k);
      CursorsMoveOn(newer, walk, m, n - 1, k);
    }
  }

  lemma ShownOnce(newer: bool, walk: seq<Visit>, k: Key, m: nat, n: nat)
    requires IsWalk(newer, walk) && m < n < |walk|
    ensures !(Shows(walk[m].page.rows, k) && Shows(walk[n].page.rows, k))
  {
    assert VisitAt(newer, walk, m) && VisitAt(newer, walk, n) && VisitAt(newer, walk, m + 1);
    PageContinues(walk[n].table, walk[n].cursor, walk[n].page, k);
    PageContinues(walk[m].table, walk[m].cursor, walk[m].page, k);
    if Shows(walk[n].page.rows, k) { CursorsMoveOn(newer, walk, m, n, k); }
  }

  /**
   * Whatever else is inserted and deleted between the requests of a walk in either direction, a row
   * that stays is shown on one page of it and on no other, and on that page in one place.
   */
  lemma WalkShowsExactlyOnce(newer: bool, walk: seq<Visit>, k: Key)
    requires IsWalk(newer, walk) && Persists(walk, k) && Beyond(walk[0].cursor, k)
    ensures exists n :: 0 <= n < |walk| && Shows(walk[n].page.rows, k)
    ensures forall m, n :: 0 <= m < n < |walk| ==> !(Shows(walk[m].page.rows, k) && Shows(walk[n].page.rows, k))
    ensures forall n :: 0 <= n < |walk| ==> NoneRepeated(walk[n].page.rows)
  {
    var last := |walk| - 1;
    NotYetPassed(newer, walk, k, last);
    assert VisitAt(newer, walk, last);
    PageContinues(walk[last].table, walk[last].cursor, walk[last].page, k);
    forall m, n | 0 <= m < n < |walk| ensures !(Shows(walk[m].page.rows, k) && Shows(walk[n].page.rows, k)) {
      ShownOnce(newer, walk, k, m, n);
    }
    forall n | 0 <= n < |walk| ensures NoneRepeated(walk[n].page.rows) {
      assert VisitAt(newer, walk, n);
      PageIsBounded(walk[n].table, walk[n].cursor, walk[n].page);
      OrderedMeansDistinct(walk[n].page.rows);
    }
  }

  predicate NoneRepeated(rows: seq<Row>) {
    forall i, j :: 0 <= i < j < |rows| ==> rows[i].key != rows[j].key
  }

  lemma OrderedMeansDistinct(rows: seq<Row>)
    requires InScanOrder(false, rows)
    ensures NoneRepeated(rows)
  {
  }

  // ---- back and forth ----

  /** Two cursors in one direction with the same rows beyond them fetch the same rows. */
  ghost predicate SameScan(table: Table, c: Option<Cursor>, d: Option<Cursor>) {
    Backward(c) == Backward(d) && forall k :: k in table ==> (Beyond(c, k) <==> Beyond(d, k))
  }

  lemma NotEarlier(table: Table, c: Option<Cursor>, d: Option<Cursor>, f: seq<Row>, g: seq<Row>, i: nat)
    requires Fetched(table, c, f) && Fetched(table, d, g) && SameScan(table, c, d)
    requires i < |f| && i < |g| && forall j :: 0 <= j < i ==> f[j] == g[j]
    ensures !Before(Backward(c), f[i].key, g[i].key)
  {
    hide Fetched;
    FetchedInOrder(table, c, f);
    FetchedInOrder(table, d, g);
    assert forall x :: 0 <= x < i ==> Before(Backward(c), g[x].key, f[i].key);
    assert forall x :: i < x < |g| ==> Before(Backward(c), g[i].key, g[x].key);
    if Before(Backward(c), f[i].key, g[i].key) {
      if x :| 0 <= x < |g| && g[x].key == f[i].key {
      } else {
        FetchedMisses(table, d, g, f[i].key);
      }
    }
  }

  lemma {:induction false} SameRows(table: Table, c: Option<Cursor>, d: Option<Cursor>, f: seq<Row>, g: seq<Row>,
                                    n: nat)
    requires Fetched(table, c, f) && Fetched(table, d, g) && SameScan(table, c, d)
    requires n <= |f| && n <= |g|
    ensures forall j :: 0 <= j < n ==> f[j] == g[j]
    decreases n
  {
    hide Fetched;
    FetchedInOrder(table, c, f);
    FetchedInOrder(table, d, g);
    if n > 0 {
      SameRows(table, c, d, f, g, n - 1);
      NotEarlier(table, c, d, f, g, n - 1);
      NotEarlier(table, d, c, g, f, n - 1);
      assert f[n - 1].key == g[n - 1].key;
    }
  }

  lemma FetchIsUnique(table: Table, c: Option<Cursor>, d: Option<Cursor>, f: seq<Row>, g: seq<Row>)
    requires Fetched(table, c, f) && Fetched(table, d, g) && SameScan(table, c, d)
    ensures f == g
  {
    assert Candidates(table, c) == Candidates(table, d);
    assert |f| == |Keys(f)| == |Keys(g)| == |g|;
    SameRows(table, c, d, f, g, |f|);
  }

  lemma PageIsUnique(table: Table, c: Cursor, d: Cursor, p: Page, q: Page)
    requires IsPage(table, Some(c), p) && IsPage(table, Some(d), q) && SameScan(table, Some(c), Some(d))
    ensures p == q
  {
    hide Fetched, IsCut;
    var f: seq<Row>, m: nat :| PageFrom(table, Some(c), f, m) && p == PageOf(f, m, Some(c));
    var g: seq<Row>, n: nat :| PageFrom(table, Some(d), g, n) && q == PageOf(g, n, Some(d));
    FetchIsUnique(table, Some(c), Some(d), f, g);
    CutIsUnique(f, m, n);
  }

  /** The cursors of a page that was reached through a cursor. */
  lemma CursorsOf(table: Table, cursor: Cursor, page: Page)
    requires IsPage(table, Some(cursor), page) && page.rows != []
    ensures !cursor.newer ==> page.previous == Some(Cursor(true, page.rows[0].key))
    ensures cursor.newer ==> page.next == Some(Cursor(false, page.rows[|page.rows| - 1].key))
    ensures exists fetched: seq<Row> :: Fetched(table, Some(cursor), fetched) && fetched != []
              && fetched[0].key == if cursor.newer then page.rows[|page.rows| - 1].key else page.rows[0].key
  {
    hide Fetched;
    var fetched: seq<Row>, count: nat :| PageFrom(table, Some(cursor), fetched, count)
      && page == PageOf(fetched, count, Some(cursor));
  }

  /** A row beyond the cursor that the page leaves out. */
  predicate LeftOut(table: Table, cursor: Option<Cursor>, page: Page, k: Key) {
    k in table && Beyond(cursor, k) && !Shows(page.rows, k)
  }

  /** The first fetched row after the cut is left out, and nearer than any other row left out. */
  lemma CutIsNearest(table: Table, cursor: Option<Cursor>, fetched: seq<Row>, count: nat, page: Page)
    requires PageFrom(table, cursor, fetched, count) && page == PageOf(fetched, count, cursor)
    ensures |fetched| > count <==> exists k :: LeftOut(table, cursor, page, k)
    ensures |fetched| > count ==>
              && LeftOut(table, cursor, page, fetched[count].key)
              && forall k :: LeftOut(table, cursor, page, k) ==>
                   k == fetched[count].key || Before(Backward(cursor), fetched[count].key, k)
  {
    hide Fetched, Bytes, Reversed;
    FetchedInOrder(table, cursor, fetched);
    forall k ensures Shows(page.rows, k) <==> Shows(fetched[..count], k) {
      ShownEitherWay(fetched[..count], page.rows, k);
    }
    forall k | LeftOut(table, cursor, page, k)
      ensures |fetched| > count && (k == fetched[count].key || Before(Backward(cursor), fetched[count].key, k))
    {
      CutLeavesRest(table, cursor, fetched, count, k);
      assert forall i :: 0 <= i < count ==> fetched[..count][i] == fetched[i] && fetched[i].key != k;
      if i :| 0 <= i < |fetched| && fetched[i].key == k {
      } else {
        FetchedMisses(table, cursor, fetched, k);
      }
    }
    if |fetched| > count {
      NotShownYet(Backward(cursor), fetched, count);
      assert LeftOut(table, cursor, page, fetched[count].key);
    }
  }

  lemma ShownEitherWay(cut: seq<Row>, rows: seq<Row>, k: Key)
    requires rows == cut || rows == Reversed(cut)
    ensures Shows(rows, k) <==> Shows(cut, k)
  {
    if i :| 0 <= i < |cut| && cut[i].key == k { assert Reversed(cut)[|cut| - 1 - i].key == k; }
  }

  lemma NotShownYet(newer: bool, fetched: seq<Row>, count: nat)
    requires InScanOrder(newer, fetched) && count < |fetched|
    ensures !Shows(fetched[..count], fetched[count].key)
  {
    assert forall i :: 0 <= i < count ==>
             fetched[..count][i] == fetched[i] && Before(newer, fetched[i].key, fetched[count].key);
  }

  /**
   * Both cursors of a page: onward in the direction of the scan exactly if some row is left out, and
   * back exactly if the page was reached through a cursor and shows something. They lie at its ends.
   */
  lemma CursorsExactly(table: Table, cursor: Option<Cursor>, page: Page)
    requires IsPage(table, cursor, page)
    ensures var left := exists k :: LeftOut(table, cursor, page, k);
            var shown := page.rows != [];
            if cursor.Some? && cursor.value.newer
            then (page.previous.Some? <==> left && shown) && (page.next.Some? <==> shown)
            else (page.next.Some? <==> left && shown) && (page.previous.Some? <==> cursor.Some? && shown)
    ensures page.next.Some? ==> page.rows != [] && page.next.value == Cursor(false, page.rows[|page.rows| - 1].key)
    ensures page.previous.Some? ==> page.rows != [] && page.previous.value == Cursor(true, page.rows[0].key)
    ensures cursor.None? ==> page.previous.None?
  {
    hide LeftOut, Fetched, Bytes;
    var fetched: seq<Row>, count: nat :| PageFrom(table, cursor, fetched, count)
      && page == PageOf(fetched, count, cursor);
    CutIsNearest(table, cursor, fetched, count, page);
  }

  /** A page that leaves something out shows 50 rows, or the nearest row left out would not have fitted. */
  lemma PageIsFull(table: Table, cursor: Option<Cursor>, page: Page)
    requires IsPage(table, cursor, page) && exists k :: LeftOut(table, cursor, page, k)
    ensures || |page.rows| == 50
            || exists k :: LeftOut(table, cursor, page, k) && Bytes(page.rows) + table[k] > 7 * 1024 * 1024
                 && forall j :: LeftOut(table, cursor, page, j) ==> j == k || Before(Backward(cursor), k, j)
  {
    hide LeftOut, Fetched;
    var fetched: seq<Row>, count: nat :| PageFrom(table, cursor, fetched, count)
      && page == PageOf(fetched, count, cursor);
    CutIsNearest(table, cursor, fetched, count, page);
    FetchedInOrder(table, cursor, fetched);
    BytesReversed(fetched[..count]);
    assert fetched[..count + 1][..count] == fetched[..count];
  }

  /** The first row of a fetch is the nearest one beyond the cursor. */
  lemma FirstIsNearest(table: Table, cursor: Option<Cursor>, rows: seq<Row>, x: Key)
    requires Fetched(table, cursor, rows) && rows != [] && x in table && Beyond(cursor, x)
    ensures x == rows[0].key || Before(Backward(cursor), rows[0].key, x)
    ensures Beyond(cursor, rows[0].key)
  {
    hide Fetched;
    FetchedInOrder(table, cursor, rows);
    if i :| 0 <= i < |rows| && rows[i].key == x {
    } else {
      FetchedMisses(table, cursor, rows, x);
    }
  }

  /** Nothing lies between the row just before a page and the page: one may start from either cursor. */
  lemma Adjacent(table: Table, cursor: Cursor, page: Page, back: Page)
    requires !cursor.newer && IsPage(table, Some(cursor), page) && page.rows != []
    requires IsPage(table, Some(Cursor(true, page.rows[0].key)), back) && back.rows != []
    ensures SameScan(table, Some(cursor), Some(Cursor(false, back.rows[|back.rows| - 1].key)))
  {
    hide IsPage, Fetched;
    var before := Cursor(true, page.rows[0].key);
    CursorsOf(table, cursor, page);
    CursorsOf(table, before, back);
    var g: seq<Row> :| Fetched(table, Some(cursor), g) && g != [] && g[0].key == page.rows[0].key;
    var f: seq<Row> :| Fetched(table, Some(before), f) && f != [] && f[0].key == back.rows[|back.rows| - 1].key;
    FetchedInOrder(table, Some(cursor), g);
    FetchedInOrder(table, Some(before), f);
    forall x | x in table ensures Precedes(cursor.key, x) <==> Precedes(f[0].key, x) {
      if Precedes(cursor.key, x) { FirstIsNearest(table, Some(cursor), g, x); }
      if Precedes(x, page.rows[0].key) { FirstIsNearest(table, Some(before), f, x); }
    }
  }

  predicate Preceded(table: Table, k: Key) { exists x :: x in table && Precedes(x, k) }

  /** Going back shows something, and so a way forward again, exactly when some row precedes. */
  lemma BackShows(table: Table, first: Key, back: Page)
    requires IsPage(table, Some(Cursor(true, first)), back)
    ensures back.next.Some? <==> Preceded(table, first)
    ensures back.next.Some? <==> back.rows != []
  {
    hide IsPage;
    PageIsBounded(table, Some(Cursor(true, first)), back);
    if Preceded(table, first) {
      var k :| k in table && Precedes(k, first);
      assert Beyond(Some(Cursor(true, first)), k);
    }
    if back.rows != [] {
      CursorsOf(table, Cursor(true, first), back);
      assert back.rows[0].key in table;
    } else {
      EmptyHasNoCursor(table, Some(Cursor(true, first)), back);
    }
  }

  lemma EmptyHasNoCursor(table: Table, cursor: Option<Cursor>, page: Page)
    requires IsPage(table, cursor, page) && page.rows == []
    ensures page.next.None? && page.previous.None?
  {
  }

  /**
   * On unchanged data: from a forward page, `previous` and then `next` lead back to that very page,
   * cursors and all, even where the byte budget cut it. There is a way back exactly when some row
   * precedes the page, as the row its own cursor came from does while it is there.
   */
  lemma BackAndForth(table: Table, cursor: Cursor, page: Page, back: Page, again: Page)
    requires !cursor.newer && IsPage(table, Some(cursor), page) && page.rows != []
    requires page.previous.Some? && IsPage(table, page.previous, back)
    requires back.next.Some? ==> IsPage(table, back.next, again)
    ensures back.next.Some? <==> Preceded(table, page.rows[0].key)
    ensures back.next.Some? ==> again == page
  {
    hide IsPage;
    CursorsOf(table, cursor, page);
    BackShows(table, page.rows[0].key, back);
    if back.next.Some? {
      CursorsOf(table, page.previous.value, back);
      Adjacent(table, cursor, page, back);
      PageIsUnique(table, cursor, back.next.value, page, again);
    }
  }

  const LARGE: Row := Row((1, 0, 0), BYTE_BUDGET)
  const SMALL: Row := Row((2, 0, 0), 1)

  lemma FirstFillsItsPage()
    ensures PageFrom(map[LARGE.key := LARGE.size, SMALL.key := SMALL.size], None, [LARGE, SMALL], 1)
  {
    var table := map[LARGE.key := LARGE.size, SMALL.key := SMALL.size];
    var rows := [LARGE, SMALL];
    assert Keys(rows) == [LARGE.key, SMALL.key];
    assert Candidates(table, None) == map[LARGE.key := LARGE.key, SMALL.key := SMALL.key];
    assert |Candidates(table, None).Keys| == |{LARGE.key, SMALL.key}|;
    assert rows[..1] == [LARGE] && rows[..2] == rows && rows[..1][..0] == [] && rows[..2][..1] == [LARGE];
    assert Bytes([LARGE]) == BYTE_BUDGET by { assert [LARGE][..0] == []; }
  }

  lemma OneRowPage(row: Row, cursor: Option<Cursor>)
    requires Beyond(cursor, row.key) && row.size <= BYTE_BUDGET
    ensures PageFrom(map[row.key := row.size], cursor, [row], 1)
  {
    assert Keys([row]) == [row.key];
    assert Candidates(map[row.key := row.size], cursor) == map[row.key := ScanRank(Backward(cursor), row.key)];
    assert [row][..1] == [row] && [row][..0] == [];
  }

  lemma NothingBeyond(row: Row, cursor: Option<Cursor>)
    requires !Beyond(cursor, row.key)
    ensures PageFrom(map[row.key := row.size], cursor, [], 0)
  {
    assert Keys([]) == [];
    assert Candidates(map[row.key := row.size], cursor) == map[];
  }

  /**
   * It does happen: the first page holds one large row, the second page is fetched through it, and
   * then that row is deleted. Going back from the second page shows nothing and leads nowhere.
   */
  lemma NoWayBack() returns (before: Table, after: Table, one: Page, two: Page, back: Page)
    ensures IsPage(before, None, one) && one.next.Some? && after == before - {LARGE.key}
    ensures IsPage(after, one.next, two) && two.rows == [SMALL] && two.previous.Some?
    ensures IsPage(after, two.previous, back) && back.rows == [] && back.next.None?
  {
    before := map[LARGE.key := LARGE.size, SMALL.key := SMALL.size];
    after := map[SMALL.key := SMALL.size];
    hide PageFrom;
    FirstFillsItsPage();
    assert [LARGE, SMALL][..1] == [LARGE] && [SMALL][..1] == [SMALL];
    one := Page([LARGE], Some(Cursor(false, LARGE.key)), None);
    assert one == PageOf([LARGE, SMALL], 1, None);
    two := Page([SMALL], None, Some(Cursor(true, SMALL.key)));
    assert two == PageOf([SMALL], 1, one.next);
    back := Page([], None, None);
    assert back == PageOf([], 0, two.previous);
    hide PageOf;
    OneRowPage(SMALL, one.next);
    NothingBeyond(SMALL, two.previous);
  }
}
