/** Small shared vocabulary: optional values, the row order of a SQL `ORDER BY ... LIMIT`. */
module Common {

  datatype Option<+T> = None | Some(value: T)

  /** One row's sort key: up to three ORDER BY columns, compared from left to right. */
  type Rank = (int, int, int)

  predicate Precedes(a: Rank, b: Rank) {
    a.0 < b.0 || (a.0 == b.0 && (a.1 < b.1 || (a.1 == b.1 && a.2 < b.2)))
  }

  function Least(a: nat, b: nat): nat { if a < b then a else b }

  predicate Distinct<K(==)>(rows: seq<K>) {
    forall i, j :: 0 <= i < j < |rows| ==> rows[i] != rows[j]
  }

  /**
   * `rows` is an answer of `SELECT ... ORDER BY rank LIMIT n` over the candidates in `rank`:
   * distinct candidates in order, as many as the limit allows, and none passed over.
   * Rows of equal rank may come in any order, as in SQL.
   */
  ghost predicate IsFirst<K>(rows: seq<K>, rank: map<K, Rank>, n: nat) {
    && Distinct(rows)
    && (forall r :: r in rows ==> r in rank)
    && |rows| == Least(n, |rank|)
    && (forall i, j :: 0 <= i < j < |rows| ==> !Precedes(rank[rows[j]], rank[rows[i]]))
    && (forall k, r :: k in rank && k !in rows && r in rows ==> !Precedes(rank[k], rank[r]))
  }

  lemma DistinctSize<K>(rows: seq<K>)
    requires Distinct(rows)
    ensures |set r | r in rows| == |rows|
  {
    if rows == [] {
      assert (set r | r in rows) == {};
    } else {
      var rest := rows[..|rows| - 1];
      DistinctSize(rest);
      assert (set r | r in rows) == (set r | r in rest) + {rows[|rows| - 1]};
    }
  }

  /** A batch shorter than its limit has taken every candidate. */
  lemma ShortBatchTakesAll<K>(rows: seq<K>, rank: map<K, Rank>, n: nat)
    requires IsFirst(rows, rank, n) && |rows| < n
    ensures forall k :: k in rank <==> k in rows
  {
    DistinctSize(rows);
    var taken := set r | r in rows;
    assert taken <= rank.Keys;
    if k :| k in rank && k !in rows {
      assert taken < rank.Keys;
      SubsetSize(taken, rank.Keys - {k});
    }
  }

  lemma SubsetSize<K>(a: set<K>, b: set<K>)
    requires a <= b
    ensures |a| <= |b|
  {
    assert b == a + (b - a);
  }

  /** A finite nonempty set of rows has one that no other precedes. */
  lemma {:induction false} MinimumExists<K>(keys: set<K>, rank: map<K, Rank>)
    requires keys != {} && keys <= rank.Keys
    ensures exists k :: k in keys && forall j :: j in keys ==> !Precedes(rank[j], rank[k])
    decreases |keys|
  {
    var k :| k in keys;
    var rest := keys - {k};
    if rest == {} {
      assert keys == rest + {k};
    } else {
      MinimumExists(rest, rank);
      var m :| m in rest && forall j :: j in rest ==> !Precedes(rank[j], rank[m]);
      var best := if Precedes(rank[k], rank[m]) then k else m;
      assert forall j :: j in keys ==> j == k || j in rest;
      assert best in keys && forall j :: j in keys ==> !Precedes(rank[j], rank[best]);
    }
  }

  ghost predicate TakenSoFar<K>(rows: seq<K>, left: set<K>, rank: map<K, Rank>) {
    && Distinct(rows)
    && left <= rank.Keys
    && (forall r :: r in rows ==> r in rank && r !in left)
    && (forall k :: k in rank ==> k in left || k in rows)
    && |rows| + |left| == |rank|
    && (forall i, j :: 0 <= i < j < |rows| ==> !Precedes(rank[rows[j]], rank[rows[i]]))
    && (forall k, r :: k in left && r in rows ==> !Precedes(rank[k], rank[r]))
  }

  lemma TakeNext<K>(rows: seq<K>, left: set<K>, rank: map<K, Rank>, k: K)
    requires TakenSoFar(rows, left, rank)
    requires k in left && forall j :: j in left ==> !Precedes(rank[j], rank[k])
    ensures TakenSoFar(rows + [k], left - {k}, rank)
  {
    assert forall r :: r in rows + [k] ==> r == k || r in rows;
  }

  /** The executable `ORDER BY ... LIMIT`: take a least remaining row until the limit or the end. */
  method OrderedLimit<K(==)>(rank: map<K, Rank>, n: nat) returns (rows: seq<K>)
    ensures IsFirst(rows, rank, n)
  {
    rows := [];
    var left := rank.Keys;
    while |rows| < n && left != {}
      invariant TakenSoFar(rows, left, rank) && |rows| <= n
      decreases |left|
    {
      MinimumExists(left, rank);
      var k :| k in left && forall j :: j in left ==> !Precedes(rank[j], rank[k]);
      TakeNext(rows, left, rank, k);
      left := left - {k};
      rows := rows + [k];
    }
  }
}
